/** Fourier-Motzkin elimination: is a conjunction of linear constraints satisfiable?
    (src/logic.js, `satisfiable`). */
module FourierMotzkin {
  import opened Rational
  import opened LinearExpr

  /** `linear < 0` when strict, `linear <= 0` otherwise. */
  datatype Constraint = Constraint(linear: Linear, strict: bool)

  /** v >= bound or v <= bound, depending on the list it is in. */
  datatype Bound = Bound(bound: Linear, strict: bool)

  datatype Answer = Yes | No | Unknown

  ghost predicate Below(x: real, y: real, strict: bool) {
    if strict then x < y else x <= y
  }

  ghost predicate Holds(c: Constraint, s: Valuation) {
    Below(Eval(c.linear, s), 0.0, c.strict)
  }

  ghost predicate HoldAll(cs: seq<Constraint>, s: Valuation) {
    forall c :: c in cs ==> Holds(c, s)
  }

  ghost predicate RationalPoint(s: Valuation) {
    forall v :: IsRational(s(v))
  }

  // ---- one elimination, as functions ---------------------------------------------------------------

  function Rest(l: Linear, v: string): Linear {
    WithoutShape(l.coeffs, v);
    Sum(Without(l.coeffs, v), l.constant)
  }

  lemma WithoutShape(ts: seq<Term>, v: string)
    requires NoRepeats(ts) && NoZeros(ts)
    ensures NoRepeats(Without(ts, v)) && NoZeros(Without(ts, v))
  {
    WithoutKeeps(ts, v);
    forall i | 0 <= i < |Without(ts, v)| ensures Without(ts, v)[i].c.n != 0 {
      assert Without(ts, v)[i] in ts;
    }
  }

  /** `coeffs.get(v)` found something. */
  predicate Involves(l: Linear, v: string) {
    Has(l.coeffs, v)
  }

  lemma {:induction false} FoundCoeff(ts: seq<Term>, v: string)
    requires NoZeros(ts)
    ensures Has(ts, v) ==> Coeff(ts, v).n != 0
    ensures !Has(ts, v) ==> Coeff(ts, v) == Zero()
  {
    if ts != [] && ts[0].v != v {
      FoundCoeff(ts[1..], v);
      if Has(ts, v) {
        var i :| 0 <= i < |ts| && ts[i].v == v;
        assert ts[1..][i - 1].v == v;
      } else {
        forall i | 0 <= i < |ts[1..]| ensures ts[1..][i].v != v {
          assert ts[i + 1].v != v;
        }
      }
    } else if ts != [] {
      assert Has(ts, v);
    }
  }

  /** Solve `linear <= 0` for v by dividing through by its coefficient. */
  function Solved(c: Constraint, v: string): Bound
    requires Involves(c.linear, v)
  {
    FoundCoeff(c.linear.coeffs, v);
    Bound(Scale(Rest(c.linear, v), Neg(Div(One(), Coeff(c.linear.coeffs, v)))), c.strict)
  }

  function Lowers(cs: seq<Constraint>, v: string): seq<Bound> {
    if cs == [] then [] else
      var c := cs[|cs| - 1];
      Lowers(cs[..|cs| - 1], v)
      + if Involves(c.linear, v) && Sign(Coeff(c.linear.coeffs, v)) <= 0 then [Solved(c, v)] else []
  }

  function Uppers(cs: seq<Constraint>, v: string): seq<Bound> {
    if cs == [] then [] else
      var c := cs[|cs| - 1];
      Uppers(cs[..|cs| - 1], v)
      + if Involves(c.linear, v) && Sign(Coeff(c.linear.coeffs, v)) > 0 then [Solved(c, v)] else []
  }

  function Unbound(cs: seq<Constraint>, v: string): seq<Constraint> {
    if cs == [] then [] else
      var c := cs[|cs| - 1];
      Unbound(cs[..|cs| - 1], v) + if Involves(c.linear, v) then [] else [c]
  }

  /** lo <= v <= hi leaves lo - hi <= 0. */
  function Between(lo: Bound, hi: Bound): Constraint {
    Constraint(Minus(lo.bound, hi.bound), lo.strict || hi.strict)
  }

  function PairRow(lo: Bound, his: seq<Bound>): seq<Constraint> {
    if his == [] then [] else PairRow(lo, his[..|his| - 1]) + [Between(lo, his[|his| - 1])]
  }

  function Pairs(los: seq<Bound>, his: seq<Bound>): seq<Constraint> {
    if los == [] then [] else Pairs(los[..|los| - 1], his) + PairRow(los[|los| - 1], his)
  }

  function Eliminate(cs: seq<Constraint>, v: string): seq<Constraint> {
    Unbound(cs, v) + Pairs(Lowers(cs, v), Uppers(cs, v))
  }

  predicate TooMany(cs: seq<Constraint>, v: string, budget: nat) {
    |Lowers(cs, v)| * |Uppers(cs, v)| > budget || |Eliminate(cs, v)| > budget
  }

  /** After the last variable only constants remain; a false one is a contradiction. */
  function Verdict(cs: seq<Constraint>): Answer {
    if cs == [] then Yes
    else if !IsConstant(cs[0].linear) then Unknown
    else
      var s := Sign(cs[0].linear.constant);
      if (if cs[0].strict then s >= 0 else s > 0) then No else Verdict(cs[1..])
  }

  function Decide(cs: seq<Constraint>, vars: seq<string>, budget: nat): Answer
    decreases |vars|
  {
    if vars == [] then Verdict(cs)
    else if TooMany(cs, vars[0], budget) then Unknown
    else Decide(Eliminate(cs, vars[0]), vars[1..], budget)
  }

  /** Some elimination on the way would go past the budget. */
  predicate OverBudget(cs: seq<Constraint>, vars: seq<string>, budget: nat)
    decreases |vars|
  {
    vars != [] && (TooMany(cs, vars[0], budget) || OverBudget(Eliminate(cs, vars[0]), vars[1..], budget))
  }

  /** The variables in order of first appearance, as a JavaScript Set keeps them. */
  function AddNames(names: seq<string>, ts: seq<Term>): seq<string> {
    if ts == [] then names else
      var before := AddNames(names, ts[..|ts| - 1]);
      var v := ts[|ts| - 1].v;
      if v in before then before else before + [v]
  }

  function Variables(cs: seq<Constraint>): seq<string> {
    if cs == [] then [] else AddNames(Variables(cs[..|cs| - 1]), cs[|cs| - 1].linear.coeffs)
  }

  // ---- membership of the recursive lists --------------------------------------------------------------

  lemma {:induction false} BoundsMembers(cs: seq<Constraint>, v: string)
    ensures forall b :: b in Lowers(cs, v) ==>
      exists c :: c in cs && Involves(c.linear, v) && Sign(Coeff(c.linear.coeffs, v)) <= 0 && Solved(c, v) == b
    ensures forall b :: b in Uppers(cs, v) ==>
      exists c :: c in cs && Involves(c.linear, v) && Sign(Coeff(c.linear.coeffs, v)) > 0 && Solved(c, v) == b
    ensures forall c :: c in cs && Involves(c.linear, v) && Sign(Coeff(c.linear.coeffs, v)) <= 0 ==> Solved(c, v) in Lowers(cs, v)
    ensures forall c :: c in cs && Involves(c.linear, v) && Sign(Coeff(c.linear.coeffs, v)) > 0 ==> Solved(c, v) in Uppers(cs, v)
    ensures forall c :: c in Unbound(cs, v) <==> c in cs && !Involves(c.linear, v)
  {
    hide Sign, Coeff, Solved, Has, Involves;
    if cs != [] {
      var n := |cs| - 1;
      BoundsMembers(cs[..n], v);
      assert cs == cs[..n] + [cs[n]];
    }
  }

  lemma {:induction false} PairRowMembers(lo: Bound, his: seq<Bound>)
    ensures forall c :: c in PairRow(lo, his) <==> exists hi :: hi in his && c == Between(lo, hi)
  {
    if his != [] {
      var n := |his| - 1;
      PairRowMembers(lo, his[..n]);
      assert his == his[..n] + [his[n]];
    }
  }

  lemma {:induction false} PairsMembers(los: seq<Bound>, his: seq<Bound>)
    ensures forall c :: c in Pairs(los, his) <==> exists lo, hi :: lo in los && hi in his && c == Between(lo, hi)
  {
    if los != [] {
      var n := |los| - 1;
      PairsMembers(los[..n], his);
      PairRowMembers(los[n], his);
      assert los == los[..n] + [los[n]];
    }
  }

  // ---- what a solved bound means -------------------------------------------------------------------

  lemma RestEval(l: Linear, v: string, s: Valuation)
    ensures Eval(l, s) == Prod(Val(Coeff(l.coeffs, v)), s(v)) + Eval(Rest(l, v), s)
  {
    hide Val, Prod;
    WithoutEval(l.coeffs, v, s);
  }

  lemma RestFree(l: Linear, v: string, names: iset<string>)
    requires Mentions(l, names)
    ensures Mentions(Rest(l, v), names - iset{v})
  {
    WithoutKeeps(l.coeffs, v);
  }

  lemma SolvedEval(c: Constraint, v: string, s: Valuation)
    requires Involves(c.linear, v)
    ensures Val(Coeff(c.linear.coeffs, v)) != 0.0
    ensures Eval(Solved(c, v).bound, s) == Prod(Eval(Rest(c.linear, v), s), -(1.0 / Val(Coeff(c.linear.coeffs, v))))
  {
    FoundCoeff(c.linear.coeffs, v);
    var k := Coeff(c.linear.coeffs, v);
    NonZeroValue(k);
    ScaleEval(Rest(c.linear, v), Neg(Div(One(), k)), s);
  }

  lemma SolveStep(k: real, x: real, w: real, strict: bool)
    requires k != 0.0
    ensures k > 0.0 ==> (Below(Prod(k, x) + w, 0.0, strict) <==> Below(x, Prod(w, -(1.0 / k)), strict))
    ensures k < 0.0 ==> (Below(Prod(k, x) + w, 0.0, strict) <==> Below(Prod(w, -(1.0 / k)), x, strict))
  {
    var b := w * -(1.0 / k);
    var i := 1.0 / k;
    assert k * i == 1.0;
    assert k * b == -(w * (k * i)) == -w;
    assert k * x + w == k * (x - b);
    if k > 0.0 {
      SignStep(k, x - b);
    } else {
      SignStep(-k, x - b);
      assert k * (x - b) == -((-k) * (x - b));
    }
  }

  lemma SignStep(k: real, d: real)
    requires k > 0.0
    ensures (k * d < 0.0 <==> d < 0.0) && (k * d > 0.0 <==> d > 0.0)
  {
  }

  /** A constraint on v is its solved bound: an upper bound when the coefficient is positive, a lower
      bound when it is negative. */
  lemma SolvedMeans(c: Constraint, v: string, s: Valuation)
    requires Involves(c.linear, v)
    ensures Sign(Coeff(c.linear.coeffs, v)) > 0 ==> (Holds(c, s) <==> Below(s(v), Eval(Solved(c, v).bound, s), c.strict))
    ensures Sign(Coeff(c.linear.coeffs, v)) <= 0 ==> (Holds(c, s) <==> Below(Eval(Solved(c, v).bound, s), s(v), c.strict))
  {
    var k := Coeff(c.linear.coeffs, v);
    var sign := Sign(k);
    SolvedEval(c, v, s);
    RestEval(c.linear, v, s);
    SolveStep(Val(k), s(v), Eval(Rest(c.linear, v), s), c.strict);
  }

  lemma SolvedFree(c: Constraint, v: string, names: iset<string>)
    requires Involves(c.linear, v) && Mentions(c.linear, names)
    ensures Mentions(Solved(c, v).bound, names - iset{v})
  {
    hide Val;
    FoundCoeff(c.linear.coeffs, v);
    RestFree(c.linear, v, names);
    var r := Rest(c.linear, v);
    OperationsMention(r, r, Neg(Div(One(), Coeff(c.linear.coeffs, v))), names - iset{v});
  }

  // ---- an elimination keeps satisfiability, both ways -------------------------------------------------

  ghost predicate AllMention(cs: seq<Constraint>, names: iset<string>) {
    forall c :: c in cs ==> Mentions(c.linear, names)
  }

  lemma EliminateFree(cs: seq<Constraint>, v: string, names: iset<string>)
    requires AllMention(cs, names)
    ensures AllMention(Eliminate(cs, v), names - iset{v})
  {
    hide Val, Sign, Coeff, Solved, Mentions;
    BoundsMembers(cs, v);
    PairsMembers(Lowers(cs, v), Uppers(cs, v));
    forall c | c in Eliminate(cs, v) ensures Mentions(c.linear, names - iset{v}) {
      if c in Unbound(cs, v) {
        UninvolvedFree(c.linear, v, names);
      } else {
        var lo, hi :| lo in Lowers(cs, v) && hi in Uppers(cs, v) && c == Between(lo, hi);
        BoundFree(cs, v, names, lo);
        BoundFree(cs, v, names, hi);
        OperationsMention(lo.bound, hi.bound, Zero(), names - iset{v});
      }
    }
  }

  lemma UninvolvedFree(l: Linear, v: string, names: iset<string>)
    requires Mentions(l, names) && !Involves(l, v)
    ensures Mentions(l, names - iset{v})
  {
  }

  lemma BoundFree(cs: seq<Constraint>, v: string, names: iset<string>, b: Bound)
    requires AllMention(cs, names) && (b in Lowers(cs, v) || b in Uppers(cs, v))
    ensures Mentions(b.bound, names - iset{v})
  {
    hide Val, Sign, Coeff, Solved, Mentions;
    BoundsMembers(cs, v);
    var c :| c in cs && Involves(c.linear, v) && Solved(c, v) == b;
    SolvedFree(c, v, names);
  }

  /** Soundness of a step: a point that meets the constraints meets the eliminated ones. */
  lemma EliminateSound(cs: seq<Constraint>, v: string, s: Valuation)
    requires HoldAll(cs, s)
    ensures HoldAll(Eliminate(cs, v), s)
  {
    hide Holds, Lowers, Uppers, Unbound, Below;
    PairsMembers(Lowers(cs, v), Uppers(cs, v));
    forall c | c in Eliminate(cs, v) ensures Holds(c, s) {
      if c in Unbound(cs, v) {
        UnboundMember(cs, v, c);
      } else {
        var lo, hi :| lo in Lowers(cs, v) && hi in Uppers(cs, v) && c == Between(lo, hi);
        BoundsHold(cs, v, s);
        BetweenSound(lo, hi, v, s);
      }
    }
  }

  lemma UnboundMember(cs: seq<Constraint>, v: string, c: Constraint)
    requires c in Unbound(cs, v)
    ensures c in cs
  {
    hide Sign, Coeff, Has, Solved;
    BoundsMembers(cs, v);
  }

  lemma BetweenSound(lo: Bound, hi: Bound, v: string, s: Valuation)
    requires Below(Eval(lo.bound, s), s(v), lo.strict) && Below(s(v), Eval(hi.bound, s), hi.strict)
    ensures Holds(Between(lo, hi), s)
  {
    hide Eval;
    MinusEval(lo.bound, hi.bound, s);
  }

  /** Every bound of the constraints is met at a point that meets the constraints. */
  lemma BoundsHold(cs: seq<Constraint>, v: string, s: Valuation)
    requires HoldAll(cs, s)
    ensures forall b :: b in Lowers(cs, v) ==> Below(Eval(b.bound, s), s(v), b.strict)
    ensures forall b :: b in Uppers(cs, v) ==> Below(s(v), Eval(b.bound, s), b.strict)
  {
    hide Val, Sign, Coeff, Eval, Has;
    BoundsMembers(cs, v);
    forall b | b in Lowers(cs, v) ensures Below(Eval(b.bound, s), s(v), b.strict) {
      var c :| c in cs && Involves(c.linear, v) && Sign(Coeff(c.linear.coeffs, v)) <= 0 && Solved(c, v) == b;
      SolvedMeans(c, v, s);
    }
    forall b | b in Uppers(cs, v) ensures Below(s(v), Eval(b.bound, s), b.strict) {
      var c :| c in cs && Involves(c.linear, v) && Sign(Coeff(c.linear.coeffs, v)) > 0 && Solved(c, v) == b;
      SolvedMeans(c, v, s);
    }
  }

  ghost function Move(s: Valuation, v: string, x: real): Valuation {
    u => if u == v then x else s(u)
  }

  lemma MoveEval(l: Linear, s: Valuation, v: string, x: real, names: iset<string>)
    requires Mentions(l, names - iset{v})
    ensures Eval(l, Move(s, v, x)) == Eval(l, s)
  {
    hide Val;
    EvalAgrees(l.coeffs, s, Move(s, v, x), names - iset{v});
  }

  // ---- a value between the bounds ------------------------------------------------------------------

  /** A bound's value at a point, with its strictness. */
  datatype Edge = Edge(x: real, strict: bool)

  ghost predicate Separated(los: seq<Edge>, his: seq<Edge>) {
    forall lo, hi :: lo in los && hi in his ==> Below(lo.x, hi.x, lo.strict || hi.strict)
  }

  ghost predicate Fits(x: real, los: seq<Edge>, his: seq<Edge>) {
    (forall e :: e in los ==> Below(e.x, x, e.strict)) && (forall e :: e in his ==> Below(x, e.x, e.strict))
  }

  lemma {:induction false} Largest(es: seq<Edge>) returns (m: Edge)
    requires es != []
    ensures m in es && forall e :: e in es ==> e.x <= m.x
  {
    if |es| == 1 {
      m := es[0];
    } else {
      m := Largest(es[1..]);
      if es[0].x > m.x { m := es[0]; }
      assert es == [es[0]] + es[1..];
    }
  }

  lemma {:induction false} Smallest(es: seq<Edge>) returns (m: Edge)
    requires es != []
    ensures m in es && forall e :: e in es ==> m.x <= e.x
  {
    if |es| == 1 {
      m := es[0];
    } else {
      m := Smallest(es[1..]);
      if es[0].x < m.x { m := es[0]; }
      assert es == [es[0]] + es[1..];
    }
  }

  lemma RationalSum(x: real, y: real)
    requires IsRational(x) && IsRational(y)
    ensures IsRational(x + y) && IsRational(x - y)
  {
    hide Val;
    var p, q := RatOf(x), RatOf(y);
    RatIsRational(Add(p, q));
    RatIsRational(Sub(p, q));
  }

  lemma RationalProduct(x: real, y: real)
    requires IsRational(x) && IsRational(y)
    ensures IsRational(Prod(x, y))
  {
    hide Val, Prod;
    var p, q := RatOf(x), RatOf(y);
    MulProd(p, q);
    RatIsRational(Mul(p, q));
  }

  lemma RationalHalf(x: real)
    requires IsRational(x)
    ensures IsRational(x / 2.0)
  {
    HalfValue();
    RatIsRational(Make(1, 2));
    RationalProduct(x, 0.5);
    assert Prod(x, 0.5) == x / 2.0;
  }

  lemma HalfValue()
    ensures Val(Make(1, 2)) == 0.5
  {
  }

  /** Between separated bounds there is a rational: past the outermost on an open side, the midpoint
      of the innermost two otherwise. */
  lemma PickBetween(los: seq<Edge>, his: seq<Edge>, here: real) returns (x: real)
    requires Separated(los, his) && IsRational(here)
    requires forall e :: e in los || e in his ==> IsRational(e.x)
    ensures Fits(x, los, his) && IsRational(x)
  {
    RatIsRational(One());
    if los == [] && his == [] {
      x := here;
    } else if his == [] {
      var lo := Largest(los);
      RationalSum(lo.x, 1.0);
      x := lo.x + 1.0;
    } else if los == [] {
      var hi := Smallest(his);
      RationalSum(hi.x, 1.0);
      x := hi.x - 1.0;
    } else {
      var lo := Largest(los);
      var hi := Smallest(his);
      RationalSum(lo.x, hi.x);
      RationalHalf(lo.x + hi.x);
      x := (lo.x + hi.x) / 2.0;
      forall e | e in los ensures Below(e.x, x, e.strict) {
        assert Below(e.x, hi.x, e.strict || hi.strict);
      }
      forall e | e in his ensures Below(x, e.x, e.strict) {
        assert Below(lo.x, e.x, lo.strict || e.strict);
      }
    }
  }

  ghost function Edges(bs: seq<Bound>, s: Valuation): (r: seq<Edge>)
    ensures |r| == |bs| && forall i :: 0 <= i < |bs| ==> r[i] == Edge(Eval(bs[i].bound, s), bs[i].strict)
  {
    seq(|bs|, i requires 0 <= i < |bs| => Edge(Eval(bs[i].bound, s), bs[i].strict))
  }

  lemma {:induction false} EvalRational(ts: seq<Term>, s: Valuation)
    requires RationalPoint(s)
    ensures IsRational(EvalTerms(ts, s))
  {
    hide Val;
    if ts == [] {
      RatIsRational(Zero());
    } else {
      RatIsRational(ts[0].c);
      EvalRational(ts[1..], s);
      RationalProduct(Val(ts[0].c), s(ts[0].v));
      RationalSum(Prod(Val(ts[0].c), s(ts[0].v)), EvalTerms(ts[1..], s));
    }
  }

  lemma EdgesRational(bs: seq<Bound>, s: Valuation)
    requires RationalPoint(s)
    ensures forall e :: e in Edges(bs, s) ==> IsRational(e.x)
  {
    hide Val;
    forall e | e in Edges(bs, s) ensures IsRational(e.x) {
      var i :| 0 <= i < |bs| && Edges(bs, s)[i] == e;
      EvalRational(bs[i].bound.coeffs, s);
      RatIsRational(bs[i].bound.constant);
      RationalSum(EvalTerms(bs[i].bound.coeffs, s), Val(bs[i].bound.constant));
    }
  }

  lemma PairsSeparate(los: seq<Bound>, his: seq<Bound>, s: Valuation)
    requires HoldAll(Pairs(los, his), s)
    ensures Separated(Edges(los, s), Edges(his, s))
  {
    hide Eval, Minus;
    PairsMembers(los, his);
    forall lo, hi | lo in Edges(los, s) && hi in Edges(his, s)
      ensures Below(lo.x, hi.x, lo.strict || hi.strict)
    {
      var i :| 0 <= i < |los| && Edges(los, s)[i] == lo;
      var j :| 0 <= j < |his| && Edges(his, s)[j] == hi;
      assert Between(los[i], his[j]) in Pairs(los, his);
      MinusEval(los[i].bound, his[j].bound, s);
    }
  }

  /** Completeness of a step: from a rational point of the eliminated constraints, v can be moved to a
      rational that meets the original ones. */
  lemma EliminateComplete(cs: seq<Constraint>, v: string, s: Valuation, names: iset<string>) returns (x: real)
    requires AllMention(cs, names) && HoldAll(Eliminate(cs, v), s) && RationalPoint(s)
    ensures IsRational(x) && HoldAll(cs, Move(s, v, x))
  {
    hide Eval, Sign, Coeff, Solved, IsRational, Fits;
    var los, his := Lowers(cs, v), Uppers(cs, v);
    PairsSeparate(los, his, s);
    EdgesRational(los, s);
    EdgesRational(his, s);
    x := PickBetween(Edges(los, s), Edges(his, s), s(v));
    forall c | c in cs ensures Holds(c, Move(s, v, x)) {
      RestoreConstraint(cs, v, s, names, x, c);
    }
  }

  lemma RestoreConstraint(cs: seq<Constraint>, v: string, s: Valuation, names: iset<string>, x: real, c: Constraint)
    requires AllMention(cs, names) && HoldAll(Eliminate(cs, v), s) && c in cs
    requires Fits(x, Edges(Lowers(cs, v), s), Edges(Uppers(cs, v), s))
    ensures Holds(c, Move(s, v, x))
  {
    hide Eval, Sign, Coeff, Mentions, Has, Move, Solved, Edges, Fits;
    ConstraintMember(cs, v, c);
    if Involves(c.linear, v) {
      FitsEdges(x, Edges(Lowers(cs, v), s), Edges(Uppers(cs, v), s));
      var b := Solved(c, v);
      if Sign(Coeff(c.linear.coeffs, v)) <= 0 {
        EdgeMember(Lowers(cs, v), s, b);
      } else {
        EdgeMember(Uppers(cs, v), s, b);
      }
      RestoreBound(c, v, s, names, x);
    } else {
      assert c in Eliminate(cs, v);
      UninvolvedFree(c.linear, v, names);
      MoveEval(c.linear, s, v, x, names);
    }
  }

  lemma ConstraintMember(cs: seq<Constraint>, v: string, c: Constraint)
    requires c in cs
    ensures Involves(c.linear, v) ==>
      Solved(c, v) in if Sign(Coeff(c.linear.coeffs, v)) <= 0 then Lowers(cs, v) else Uppers(cs, v)
    ensures !Involves(c.linear, v) ==> c in Unbound(cs, v)
  {
    hide Sign, Coeff, Has, Solved;
    BoundsMembers(cs, v);
  }

  lemma RestoreBound(c: Constraint, v: string, s: Valuation, names: iset<string>, x: real)
    requires Involves(c.linear, v) && Mentions(c.linear, names)
    requires var e := Edge(Eval(Solved(c, v).bound, s), Solved(c, v).strict);
      if Sign(Coeff(c.linear.coeffs, v)) <= 0 then Below(e.x, x, e.strict) else Below(x, e.x, e.strict)
    ensures Holds(c, Move(s, v, x))
  {
    hide Eval, Sign, Coeff, Mentions, Has, Move, Solved;
    SolvedStrict(c, v);
    SolvedFree(c, v, names);
    MoveEval(Solved(c, v).bound, s, v, x, names);
    SolvedMeans(c, v, Move(s, v, x));
    MovedAt(s, v, x);
  }

  lemma SolvedStrict(c: Constraint, v: string)
    requires Involves(c.linear, v)
    ensures Solved(c, v).strict == c.strict
  {
  }

  lemma EdgeMember(bs: seq<Bound>, s: Valuation, b: Bound)
    requires b in bs
    ensures Edge(Eval(b.bound, s), b.strict) in Edges(bs, s)
  {
    hide Eval;
    var i :| 0 <= i < |bs| && bs[i] == b;
    assert Edges(bs, s)[i] == Edge(Eval(b.bound, s), b.strict);
  }

  lemma FitsEdges(x: real, los: seq<Edge>, his: seq<Edge>)
    requires Fits(x, los, his)
    ensures forall e :: e in los ==> Below(e.x, x, e.strict)
    ensures forall e :: e in his ==> Below(x, e.x, e.strict)
  {
  }

  lemma MovedAt(s: Valuation, v: string, x: real)
    ensures Move(s, v, x)(v) == x
  {
  }

  // ---- exactness of the whole procedure ------------------------------------------------------------

  lemma MentionsFirst(l: Linear, names: iset<string>)
    requires Mentions(l, names) && |l.coeffs| > 0
    ensures l.coeffs[0].v in names
  {
  }

  lemma {:induction false} VerdictExact(cs: seq<Constraint>, s: Valuation)
    requires AllMention(cs, iset{})
    ensures Verdict(cs) != Unknown
    ensures Verdict(cs) == Yes <==> HoldAll(cs, s)
  {
    if cs != [] {
      var c := cs[0];
      assert c in cs;
      assert IsConstant(c.linear) by {
        if |c.linear.coeffs| > 0 {
          MentionsFirst(c.linear, iset{});
          assert false;
        }
      }
      VerdictExact(cs[1..], s);
      var sign := Sign(c.linear.constant);
      assert cs == [c] + cs[1..];
    }
  }

  /** Unsatisfiable is never wrong: whatever the budget, No means no real point meets the
      constraints, so in particular no rational one does. */
  lemma {:induction false} DecideSound(cs: seq<Constraint>, vars: seq<string>, budget: nat, s: Valuation)
    requires AllMention(cs, iset v | v in vars) && HoldAll(cs, s)
    ensures Decide(cs, vars, budget) != No
    decreases |vars|
  {
    if vars == [] {
      VerdictExact(cs, s);
    } else if !TooMany(cs, vars[0], budget) {
      EliminateSound(cs, vars[0], s);
      RemainingNames(cs, vars);
      DecideSound(Eliminate(cs, vars[0]), vars[1..], budget, s);
    }
  }

  lemma RemainingNames(cs: seq<Constraint>, vars: seq<string>)
    requires vars != [] && AllMention(cs, iset v | v in vars)
    ensures AllMention(Eliminate(cs, vars[0]), iset v | v in vars[1..])
  {
    hide Eliminate;
    var names := iset v | v in vars;
    EliminateFree(cs, vars[0], names);
    assert (names - iset{vars[0]}) <= iset v | v in vars[1..];
  }

  /** Satisfiable is never wrong: Yes comes with a rational point, rebuilt back through the eliminated
      variables. */
  lemma {:induction false} DecideComplete(cs: seq<Constraint>, vars: seq<string>, budget: nat) returns (s: Valuation)
    requires AllMention(cs, iset v | v in vars) && Decide(cs, vars, budget) == Yes
    ensures RationalPoint(s) && HoldAll(cs, s)
    decreases |vars|
  {
    if vars == [] {
      s := v => 0.0;
      RatIsRational(Zero());
      VerdictExact(cs, s);
    } else {
      RemainingNames(cs, vars);
      var t := DecideComplete(Eliminate(cs, vars[0]), vars[1..], budget);
      var x := EliminateComplete(cs, vars[0], t, iset v | v in vars);
      s := Move(t, vars[0], x);
    }
  }

  /** The third answer means the budget and nothing else. */
  lemma {:induction false} DecideUnknown(cs: seq<Constraint>, vars: seq<string>, budget: nat)
    requires AllMention(cs, iset v | v in vars)
    ensures Decide(cs, vars, budget) == Unknown <==> OverBudget(cs, vars, budget)
    decreases |vars|
  {
    if vars == [] {
      VerdictExact(cs, v => 0.0);
    } else if !TooMany(cs, vars[0], budget) {
      RemainingNames(cs, vars);
      DecideUnknown(Eliminate(cs, vars[0]), vars[1..], budget);
    }
  }

  lemma {:induction false} AddNamesMembers(names: seq<string>, ts: seq<Term>)
    ensures forall v :: v in AddNames(names, ts) <==> v in names || exists t :: t in ts && t.v == v
  {
    if ts != [] {
      var n := |ts| - 1;
      AddNamesMembers(names, ts[..n]);
      assert ts == ts[..n] + [ts[n]];
    }
  }

  lemma {:induction false} VariablesCover(cs: seq<Constraint>)
    ensures AllMention(cs, iset v | v in Variables(cs))
  {
    if cs != [] {
      var n := |cs| - 1;
      VariablesCover(cs[..n]);
      AddNamesMembers(Variables(cs[..n]), cs[n].linear.coeffs);
      assert cs == cs[..n] + [cs[n]];
    }
  }

  ghost predicate Satisfied(cs: seq<Constraint>) {
    exists s :: RationalPoint(s) && HoldAll(cs, s)
  }

  /** Fourier-Motzkin is exact. */
  lemma SatisfiableExact(cs: seq<Constraint>, budget: nat)
    ensures var r := Decide(cs, Variables(cs), budget);
      && (r == Yes ==> Satisfied(cs))
      && (r == No ==> forall s: Valuation :: !HoldAll(cs, s))
      && (r == Unknown <==> OverBudget(cs, Variables(cs), budget))
  {
    var vars := Variables(cs);
    VariablesCover(cs);
    DecideUnknown(cs, vars, budget);
    if Decide(cs, vars, budget) == Yes {
      var s := DecideComplete(cs, vars, budget);
    } else if Decide(cs, vars, budget) == No {
      forall s: Valuation ensures !HoldAll(cs, s) {
        if HoldAll(cs, s) { DecideSound(cs, vars, budget, s); }
      }
    }
  }

  // ---- how much budget is enough -----------------------------------------------------------------------

  /** No elimination of k variables from n constraints makes more than this. */
  function Room(n: nat, k: nat): nat
    decreases k
  {
    if k == 0 then 0 else var m := n + n * n / 4; if m > Room(m, k - 1) then m else Room(m, k - 1)
  }

  lemma {:induction false} RoomGrows(n: nat, k: nat, n': nat, k': nat)
    requires n <= n' && k <= k'
    ensures Room(n, k) <= Room(n', k')
    decreases k
  {
    if k > 0 {
      assert n * n <= n' * n' by { SquareGrows(n, n'); }
      RoomGrows(n + n * n / 4, k - 1, n' + n' * n' / 4, k' - 1);
    }
  }

  lemma SquareGrows(n: nat, m: nat)
    requires n <= m
    ensures n * n <= m * m
  {
    assert m * m - n * n == (m - n) * (m + n);
  }

  lemma {:induction false} EverySide(cs: seq<Constraint>, v: string)
    ensures |Lowers(cs, v)| + |Uppers(cs, v)| + |Unbound(cs, v)| == |cs|
  {
    hide Involves, Solved, Coeff, Sign;
    if cs != [] {
      EverySide(cs[..|cs| - 1], v);
    }
  }

  lemma {:induction false} PairsCount(los: seq<Bound>, his: seq<Bound>)
    ensures |Pairs(los, his)| == |los| * |his|
  {
    hide Between;
    if los != [] {
      var n := |los| - 1;
      PairsCount(los[..n], his);
      PairRowCount(los[n], his);
      assert n * |his| + |his| == (n + 1) * |his|;
    }
  }

  lemma {:induction false} PairRowCount(lo: Bound, his: seq<Bound>)
    ensures |PairRow(lo, his)| == |his|
  {
    hide Between;
    if his != [] {
      PairRowCount(lo, his[..|his| - 1]);
    }
  }

  lemma FourProducts(x: nat, y: nat, n: nat)
    requires x + y <= n
    ensures x * y <= n * n / 4
  {
    SquareGrows(x + y, n);
    assert (x + y) * (x + y) - 4 * (x * y) == (x - y) * (x - y);
    assert (x - y) * (x - y) >= 0;
  }

  lemma EliminateCount(cs: seq<Constraint>, v: string)
    ensures |Lowers(cs, v)| * |Uppers(cs, v)| <= |cs| + |cs| * |cs| / 4
    ensures |Eliminate(cs, v)| <= |cs| + |cs| * |cs| / 4
  {
    hide Lowers, Uppers, Unbound, Pairs;
    EverySide(cs, v);
    PairsCount(Lowers(cs, v), Uppers(cs, v));
    FourProducts(|Lowers(cs, v)|, |Uppers(cs, v)|, |cs|);
  }

  /** The procedure answers whenever it is given that much room. */
  lemma {:induction false} BudgetEnough(cs: seq<Constraint>, vars: seq<string>, budget: nat)
    requires Room(|cs|, |vars|) <= budget
    ensures !OverBudget(cs, vars, budget)
    decreases |vars|
  {
    hide Eliminate, Lowers, Uppers;
    if vars != [] {
      var next := Eliminate(cs, vars[0]);
      EliminateCount(cs, vars[0]);
      RoomGrows(|next|, |vars| - 1, |cs| + |cs| * |cs| / 4, |vars| - 1);
      BudgetEnough(next, vars[1..], budget);
    }
  }

  lemma {:induction false} AddNamesOnce(names: seq<string>, ts: seq<Term>)
    requires Once(names)
    ensures Once(AddNames(names, ts))
  {
    if ts != [] {
      AddNamesOnce(names, ts[..|ts| - 1]);
    }
  }

  ghost predicate Once(names: seq<string>) {
    forall i, j :: 0 <= i < j < |names| ==> names[i] != names[j]
  }

  lemma {:induction false} VariablesOnce(cs: seq<Constraint>)
    ensures Once(Variables(cs))
  {
    if cs != [] {
      VariablesOnce(cs[..|cs| - 1]);
      AddNamesOnce(Variables(cs[..|cs| - 1]), cs[|cs| - 1].linear.coeffs);
    }
  }

  lemma {:induction false} VariablesWithin(cs: seq<Constraint>, names: set<string>)
    requires AllMention(cs, iset v | v in names)
    ensures forall v :: v in Variables(cs) ==> v in names
  {
    if cs != [] {
      var n := |cs| - 1;
      VariablesWithin(cs[..n], names);
      AddNamesMembers(Variables(cs[..n]), cs[n].linear.coeffs);
      assert cs[n] in cs;
    }
  }

  lemma {:induction false} OnceCount(names: seq<string>, all: set<string>)
    requires Once(names) && forall v :: v in names ==> v in all
    ensures |names| <= |all|
  {
    if names != [] {
      var last := names[|names| - 1];
      OnceCount(names[..|names| - 1], all - {last});
    }
  }

  /** n constraints over a set of names are decided within the room for so many names. */
  lemma SatisfiableDecides(cs: seq<Constraint>, names: set<string>, n: nat, budget: nat)
    requires AllMention(cs, iset v | v in names) && |cs| <= n && Room(n, |names|) <= budget
    ensures Decide(cs, Variables(cs), budget) != Unknown
  {
    VariablesOnce(cs);
    VariablesWithin(cs, names);
    OnceCount(Variables(cs), names);
    RoomGrows(|cs|, |Variables(cs)|, n, |names|);
    BudgetEnough(cs, Variables(cs), budget);
    SatisfiableExact(cs, budget);
  }

  // ---- the loops of the source -----------------------------------------------------------------------

  lemma TakeNext<T>(xs: seq<T>, i: nat)
    requires i < |xs|
    ensures xs[..i + 1][..i] == xs[..i] && xs[..i + 1][i] == xs[i] && |xs[..i + 1]| == i + 1
  {
  }

  method CollectVariables(cs: seq<Constraint>) returns (variables: seq<string>)
    ensures variables == Variables(cs)
  {
    variables := [];
    for i := 0 to |cs|
      invariant variables == Variables(cs[..i])
    {
      ghost var before := variables;
      var ts := cs[i].linear.coeffs;
      for j := 0 to |ts|
        invariant variables == AddNames(before, ts[..j])
      {
        TakeNext(ts, j);
        if ts[j].v !in variables {
          variables := variables + [ts[j].v];
        }
      }
      TakeNext(cs, i);
      assert ts[..|ts|] == ts;
    }
    assert cs[..|cs|] == cs;
  }

  method SplitBounds(cs: seq<Constraint>, v: string)
    returns (lower: seq<Bound>, upper: seq<Bound>, rest: seq<Constraint>)
    ensures lower == Lowers(cs, v) && upper == Uppers(cs, v) && rest == Unbound(cs, v)
  {
    hide Solved, Involves, Coeff, Sign;
    lower, upper, rest := [], [], [];
    for i := 0 to |cs|
      invariant lower == Lowers(cs[..i], v) && upper == Uppers(cs[..i], v) && rest == Unbound(cs[..i], v)
    {
      TakeNext(cs, i);
      var c := cs[i];
      if !Involves(c.linear, v) {
        rest := rest + [c];
      } else if Sign(Coeff(c.linear.coeffs, v)) > 0 {
        upper := upper + [Solved(c, v)];
      } else {
        lower := lower + [Solved(c, v)];
      }
    }
    assert cs[..|cs|] == cs;
  }

  method PairBounds(lower: seq<Bound>, upper: seq<Bound>, rest: seq<Constraint>) returns (next: seq<Constraint>)
    ensures next == rest + Pairs(lower, upper)
  {
    hide Between, PairRow;
    next := rest;
    assert rest + Pairs(lower[..0], upper) == rest;
    for i := 0 to |lower|
      invariant next == rest + Pairs(lower[..i], upper)
    {
      TakeNext(lower, i);
      var row := PairWithUppers(lower[i], upper);
      AppendAssoc(rest, Pairs(lower[..i], upper), row);
      next := next + row;
    }
    assert lower[..|lower|] == lower;
  }

  method PairWithUppers(lo: Bound, upper: seq<Bound>) returns (row: seq<Constraint>)
    ensures row == PairRow(lo, upper)
  {
    row := [];
    for j := 0 to |upper|
      invariant row == PairRow(lo, upper[..j])
    {
      TakeNext(upper, j);
      row := row + [Between(lo, upper[j])];
    }
    assert upper[..|upper|] == upper;
  }

  lemma AppendAssoc<T>(a: seq<T>, b: seq<T>, c: seq<T>)
    ensures (a + b) + c == a + (b + c)
  {
  }

  /** The procedure as it runs: one variable after another, the list of constraints reassigned. */
  method Satisfiable(constraints: seq<Constraint>, budget: nat) returns (r: Answer)
    ensures r == Decide(constraints, Variables(constraints), budget)
    ensures r == Yes ==> Satisfied(constraints)
    ensures r == No ==> forall s: Valuation :: !HoldAll(constraints, s)
    ensures r == Unknown <==> OverBudget(constraints, Variables(constraints), budget)
  {
    SatisfiableExact(constraints, budget);
    var current := constraints;
    var variables := CollectVariables(constraints);
    for k := 0 to |variables|
      invariant Decide(current, variables[k..], budget) == Decide(constraints, variables, budget)
    {
      var v := variables[k];
      assert variables[k..][0] == v && variables[k..][1..] == variables[k + 1..];
      var lower, upper, rest := SplitBounds(current, v);
      if |lower| * |upper| > budget { return Unknown; }
      var next := PairBounds(lower, upper, rest);
      if |next| > budget { return Unknown; }
      current := next;
    }
    for i := 0 to |current|
      invariant Verdict(current[i..]) == Verdict(current)
    {
      var c := current[i];
      assert current[i..][0] == c && current[i..][1..] == current[i + 1..];
      if !IsConstant(c.linear) { return Unknown; }
      var s := Sign(c.linear.constant);
      if (if c.strict then s >= 0 else s > 0) { return No; }
    }
    return Yes;
  }
}
