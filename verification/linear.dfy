/** Linear expressions: coefficients by variable, in insertion order, plus a constant
    (src/logic.js, class Linear). */
module LinearExpr {
  import opened Rational
  import opened Text

  /** One entry of the coefficient map. */
  datatype Term = Term(v: string, c: Rat)

  datatype Sum = Sum(coeffs: seq<Term>, constant: Rat)

  /** What the class keeps: each variable once, and never a zero coefficient. */
  ghost predicate WellFormed(l: Sum) {
    && (forall i, j :: 0 <= i < j < |l.coeffs| ==> l.coeffs[i].v != l.coeffs[j].v)
    && (forall i :: 0 <= i < |l.coeffs| ==> l.coeffs[i].c.n != 0)
  }

  type Linear = l: Sum | WellFormed(l) witness Sum([], Ratio(0, 1))

  type Valuation = string -> real

  /** Multiplication by name, so that a proof may treat a product as an atom. */
  ghost function Prod(a: real, b: real): real {
    a * b
  }

  ghost function EvalTerms(ts: seq<Term>, s: Valuation): real {
    if ts == [] then 0.0 else Prod(Val(ts[0].c), s(ts[0].v)) + EvalTerms(ts[1..], s)
  }

  ghost function Eval(l: Sum, s: Valuation): real {
    EvalTerms(l.coeffs, s) + Val(l.constant)
  }

  ghost function Vars(l: Sum): set<string> {
    set i | 0 <= i < |l.coeffs| :: l.coeffs[i].v
  }

  // ---- the coefficient map ---------------------------------------------------------------------

  predicate Has(ts: seq<Term>, v: string) {
    exists i :: 0 <= i < |ts| && ts[i].v == v
  }

  ghost predicate NoRepeats(ts: seq<Term>) {
    forall i, j :: 0 <= i < j < |ts| ==> ts[i].v != ts[j].v
  }

  ghost predicate NoZeros(ts: seq<Term>) {
    forall i :: 0 <= i < |ts| ==> ts[i].c.n != 0
  }

  /** `coeffs.get(v) ?? ZERO`. */
  function Coeff(ts: seq<Term>, v: string): Rat {
    if ts == [] then Zero() else if ts[0].v == v then ts[0].c else Coeff(ts[1..], v)
  }

  /** `coeffs.set(v, c)`: in place when present, at the end otherwise. */
  function SetCoeff(ts: seq<Term>, v: string, c: Rat): seq<Term> {
    if ts == [] then [Term(v, c)]
    else if ts[0].v == v then [Term(v, c)] + ts[1..]
    else [ts[0]] + SetCoeff(ts[1..], v, c)
  }

  /** All entries but v's. */
  function Without(ts: seq<Term>, v: string): seq<Term> {
    if ts == [] then [] else if ts[0].v == v then Without(ts[1..], v) else [ts[0]] + Without(ts[1..], v)
  }

  /** One pass of the loop in `add`: a sum of zero deletes the entry. */
  function AddTerm(ts: seq<Term>, v: string, c: Rat): seq<Term> {
    var sum := Add(Coeff(ts, v), c);
    if IsZero(sum) then Without(ts, v) else SetCoeff(ts, v, sum)
  }

  function AddTerms(ts: seq<Term>, more: seq<Term>): seq<Term>
    decreases |more|
  {
    if more == [] then ts else AddTerms(AddTerm(ts, more[0].v, more[0].c), more[1..])
  }

  lemma {:induction false} WithoutKeeps(ts: seq<Term>, v: string)
    ensures forall t :: t in Without(ts, v) <==> t in ts && t.v != v
    ensures NoRepeats(ts) ==> NoRepeats(Without(ts, v))
  {
    if ts != [] {
      WithoutKeeps(ts[1..], v);
      assert ts == [ts[0]] + ts[1..];
      if NoRepeats(ts) {
        assert NoRepeats(ts[1..]) && forall u :: u in ts[1..] ==> u.v != ts[0].v;
        ConsNoRepeats(ts[0], Without(ts[1..], v));
      }
    }
  }

  lemma {:induction false} WithoutEval(ts: seq<Term>, v: string, s: Valuation)
    requires NoRepeats(ts)
    ensures EvalTerms(Without(ts, v), s) == EvalTerms(ts, s) - Prod(Val(Coeff(ts, v)), s(v))
  {
    if ts != [] {
      var rest := ts[1..];
      assert NoRepeats(rest);
      WithoutEval(rest, v, s);
      if ts[0].v == v {
        assert forall t :: t in rest ==> t.v != v;
        AbsentCoeff(rest, v);
        ZeroTimes(Val(Coeff(rest, v)), s(v));
      } else {
        EvalCons(ts[0], Without(rest, v), s);
      }
    }
  }

  lemma ZeroTimes(c: real, x: real)
    requires c == 0.0
    ensures Prod(c, x) == 0.0
  {
  }

  lemma SumTimes(a: real, b: real, x: real)
    ensures Prod(a + b, x) == Prod(a, x) + Prod(b, x)
  {
  }

  lemma {:induction false} AbsentCoeff(ts: seq<Term>, v: string)
    requires forall t :: t in ts ==> t.v != v
    ensures Val(Coeff(ts, v)) == 0.0
  {
    if ts != [] {
      assert ts[0] in ts;
      AbsentCoeff(ts[1..], v);
    }
  }

  lemma EvalCons(t: Term, ts: seq<Term>, s: Valuation)
    ensures EvalTerms([t] + ts, s) == Prod(Val(t.c), s(t.v)) + EvalTerms(ts, s)
  {
    assert ([t] + ts)[1..] == ts;
  }

  lemma {:induction false} SetEval(ts: seq<Term>, v: string, c: Rat, s: Valuation)
    ensures EvalTerms(SetCoeff(ts, v, c), s) == EvalTerms(ts, s) - Prod(Val(Coeff(ts, v)), s(v)) + Prod(Val(c), s(v))
  {
    if ts == [] {
      EvalCons(Term(v, c), [], s);
    } else if ts[0].v == v {
      EvalCons(Term(v, c), ts[1..], s);
    } else {
      SetEval(ts[1..], v, c, s);
      EvalCons(ts[0], SetCoeff(ts[1..], v, c), s);
    }
  }

  lemma {:induction false} SetKeeps(ts: seq<Term>, v: string, c: Rat)
    requires NoRepeats(ts) && NoZeros(ts) && c.n != 0
    ensures NoRepeats(SetCoeff(ts, v, c)) && NoZeros(SetCoeff(ts, v, c))
    ensures forall t :: t in SetCoeff(ts, v, c) ==> t.v == v || t in ts
  {
    hide Lowest;
    if ts != [] && ts[0].v != v {
      assert NoRepeats(ts[1..]) && NoZeros(ts[1..]);
      SetKeeps(ts[1..], v, c);
      assert ts == [ts[0]] + ts[1..];
      ConsNoRepeats(ts[0], SetCoeff(ts[1..], v, c));
    } else if ts != [] {
      assert NoRepeats(ts[1..]) && NoZeros(ts[1..]);
      assert forall t :: t in ts[1..] ==> t.v != v;
      ConsNoRepeats(Term(v, c), ts[1..]);
    }
  }

  lemma ConsNoRepeats(t: Term, ts: seq<Term>)
    requires NoRepeats(ts) && forall u :: u in ts ==> u.v != t.v
    ensures NoRepeats([t] + ts)
  {
    forall i, j | 0 <= i < j < |[t] + ts| ensures ([t] + ts)[i].v != ([t] + ts)[j].v {
      assert ts[j - 1] in ts;
    }
  }

  lemma AddTermShape(ts: seq<Term>, v: string, c: Rat)
    requires NoRepeats(ts) && NoZeros(ts)
    ensures NoRepeats(AddTerm(ts, v, c)) && NoZeros(AddTerm(ts, v, c))
    ensures forall t :: t in AddTerm(ts, v, c) ==> t.v == v || t in ts
  {
    var sum := Add(Coeff(ts, v), c);
    if IsZero(sum) {
      WithoutKeeps(ts, v);
      forall i | 0 <= i < |Without(ts, v)| ensures Without(ts, v)[i].c.n != 0 {
        assert Without(ts, v)[i] in ts;
      }
    } else {
      SetKeeps(ts, v, sum);
    }
  }

  lemma AddTermEval(ts: seq<Term>, v: string, c: Rat, s: Valuation)
    requires NoRepeats(ts)
    ensures EvalTerms(AddTerm(ts, v, c), s) == EvalTerms(ts, s) + Prod(Val(c), s(v))
  {
    hide Val, Prod;
    var sum := Add(Coeff(ts, v), c);
    SumTimes(Val(Coeff(ts, v)), Val(c), s(v));
    if IsZero(sum) {
      WithoutEval(ts, v, s);
      ZeroTimes(Val(sum), s(v));
    } else {
      SetEval(ts, v, sum, s);
    }
  }

  lemma {:induction false} AddTermsShape(ts: seq<Term>, more: seq<Term>)
    requires NoRepeats(ts) && NoZeros(ts)
    ensures NoRepeats(AddTerms(ts, more)) && NoZeros(AddTerms(ts, more))
    decreases |more|
  {
    if more != [] {
      AddTermShape(ts, more[0].v, more[0].c);
      AddTermsShape(AddTerm(ts, more[0].v, more[0].c), more[1..]);
    }
  }

  lemma {:induction false} AddTermsEval(ts: seq<Term>, more: seq<Term>, s: Valuation)
    requires NoRepeats(ts) && NoZeros(ts)
    ensures EvalTerms(AddTerms(ts, more), s) == EvalTerms(ts, s) + EvalTerms(more, s)
    decreases |more|
  {
    hide Val, Prod;
    if more != [] {
      AddTermShape(ts, more[0].v, more[0].c);
      AddTermEval(ts, more[0].v, more[0].c, s);
      AddTermsEval(AddTerm(ts, more[0].v, more[0].c), more[1..], s);
    }
  }

  ghost predicate NamesIn(ts: seq<Term>, names: iset<string>) {
    forall t :: t in ts ==> t.v in names
  }

  lemma {:induction false} AddTermsNames(ts: seq<Term>, more: seq<Term>, names: iset<string>)
    requires NoRepeats(ts) && NoZeros(ts) && NamesIn(ts, names) && NamesIn(more, names)
    ensures NamesIn(AddTerms(ts, more), names)
    decreases |more|
  {
    if more != [] {
      AddTermShape(ts, more[0].v, more[0].c);
      assert more[0] in more;
      AddTermsNames(AddTerm(ts, more[0].v, more[0].c), more[1..], names);
    }
  }

  // ---- the operations ----------------------------------------------------------------------------

  function Constant(r: Rat): Linear {
    Sum([], r)
  }

  function Variable(name: string): Linear {
    Sum([Term(name, One())], Zero())
  }

  function Plus(a: Linear, b: Linear): Linear {
    AddTermsShape(a.coeffs, b.coeffs);
    Sum(AddTerms(a.coeffs, b.coeffs), Add(a.constant, b.constant))
  }

  function NegTerms(ts: seq<Term>): (r: seq<Term>)
    ensures |r| == |ts| && forall i :: 0 <= i < |ts| ==> r[i].v == ts[i].v && r[i].c == Neg(ts[i].c)
  {
    seq(|ts|, i requires 0 <= i < |ts| => Term(ts[i].v, Neg(ts[i].c)))
  }

  function Negate(a: Linear): Linear {
    NegTermsShape(a.coeffs);
    Sum(NegTerms(a.coeffs), Neg(a.constant))
  }

  function Minus(a: Linear, b: Linear): Linear {
    Plus(a, Negate(b))
  }

  function ScaleTerms(ts: seq<Term>, k: Rat): (r: seq<Term>)
    ensures |r| == |ts| && forall i :: 0 <= i < |ts| ==> r[i].v == ts[i].v && r[i].c == Mul(ts[i].c, k)
  {
    seq(|ts|, i requires 0 <= i < |ts| => Term(ts[i].v, Mul(ts[i].c, k)))
  }

  function Scale(a: Linear, k: Rat): Linear {
    if IsZero(k) then Constant(Zero()) else
      ScaleTermsShape(a.coeffs, k);
      Sum(ScaleTerms(a.coeffs, k), Mul(a.constant, k))
  }

  predicate IsConstant(a: Linear) {
    |a.coeffs| == 0
  }

  lemma NonZeroValue(c: Rat)
    ensures c.n != 0 <==> Val(c) != 0.0
  {
    SignOfQuotient(c.n, c.d);
  }

  lemma NegTermsShape(ts: seq<Term>)
    requires NoZeros(ts)
    ensures NoZeros(NegTerms(ts))
  {
    forall i | 0 <= i < |ts| ensures NegTerms(ts)[i].c.n != 0 {
      NonZeroValue(ts[i].c);
      NonZeroValue(Neg(ts[i].c));
    }
  }

  lemma ScaleTermsShape(ts: seq<Term>, k: Rat)
    requires NoZeros(ts) && k.n != 0
    ensures NoZeros(ScaleTerms(ts, k))
  {
    forall i | 0 <= i < |ts| ensures ScaleTerms(ts, k)[i].c.n != 0 {
      NonZeroValue(ts[i].c);
      NonZeroValue(k);
      NonZeroValue(Mul(ts[i].c, k));
    }
  }

  lemma ConstantEval(r: Rat, s: Valuation)
    ensures Eval(Constant(r), s) == Val(r)
  {
  }

  lemma VariableEval(name: string, s: Valuation)
    ensures Eval(Variable(name), s) == s(name)
  {
    var t := Term(name, One());
    assert [t] + [] == [t];
    EvalCons(t, [], s);
    OneTimes(s(name));
  }

  lemma OneTimes(x: real)
    ensures Prod(1.0, x) == x
  {
  }

  lemma PlusEval(a: Linear, b: Linear, s: Valuation)
    ensures Eval(Plus(a, b), s) == Eval(a, s) + Eval(b, s)
  {
    hide Val, Prod;
    AddTermsEval(a.coeffs, b.coeffs, s);
  }

  lemma {:induction false} NegTermsEval(ts: seq<Term>, s: Valuation)
    ensures EvalTerms(NegTerms(ts), s) == -EvalTerms(ts, s)
  {
    hide Val, Prod;
    if ts != [] {
      NegTermsEval(ts[1..], s);
      assert NegTerms(ts)[1..] == NegTerms(ts[1..]);
      NegProd(Val(ts[0].c), s(ts[0].v));
    }
  }

  lemma NegProd(a: real, b: real)
    ensures Prod(-a, b) == -Prod(a, b)
  {
  }

  lemma NegateEval(a: Linear, s: Valuation)
    ensures Eval(Negate(a), s) == -Eval(a, s)
  {
    hide Val, Prod;
    NegTermsEval(a.coeffs, s);
  }

  lemma MinusEval(a: Linear, b: Linear, s: Valuation)
    ensures Eval(Minus(a, b), s) == Eval(a, s) - Eval(b, s)
  {
    hide Val, Prod;
    NegateEval(b, s);
    PlusEval(a, Negate(b), s);
  }

  lemma {:induction false} ScaleTermsEval(ts: seq<Term>, k: Rat, s: Valuation)
    ensures EvalTerms(ScaleTerms(ts, k), s) == Prod(EvalTerms(ts, s), Val(k))
  {
    hide Val, Prod;
    if ts == [] {
      ZeroTimes(0.0, Val(k));
    } else {
      ScaleTermsEval(ts[1..], k, s);
      assert ScaleTerms(ts, k)[1..] == ScaleTerms(ts[1..], k);
      ScaleStep(Val(ts[0].c), s(ts[0].v), EvalTerms(ts[1..], s), Val(k));
      MulProd(ts[0].c, k);
    }
  }

  lemma MulProd(c: Rat, k: Rat)
    ensures Val(Mul(c, k)) == Prod(Val(c), Val(k))
  {
  }

  lemma ScaleStep(c: real, x: real, rest: real, k: real)
    ensures Prod(Prod(c, x) + rest, k) == Prod(Prod(c, k), x) + Prod(rest, k)
  {
  }

  lemma ScaleEval(a: Linear, k: Rat, s: Valuation)
    ensures Eval(Scale(a, k), s) == Prod(Eval(a, s), Val(k))
  {
    if IsZero(k) {
      assert Val(k) == 0.0;
      ZeroRight(Eval(a, s), Val(k));
    } else {
      hide Val, Prod;
      ScaleTermsEval(a.coeffs, k, s);
      MulProd(a.constant, k);
      SumTimes(EvalTerms(a.coeffs, s), Val(a.constant), Val(k));
    }
  }

  lemma ZeroRight(x: real, k: real)
    requires k == 0.0
    ensures Prod(x, k) == 0.0
  {
  }

  // ---- which variables an expression mentions ----------------------------------------------------

  /** Every variable of the expression is among the names. */
  ghost predicate Mentions(l: Sum, names: iset<string>) {
    NamesIn(l.coeffs, names)
  }

  lemma OperationsMention(a: Linear, b: Linear, k: Rat, names: iset<string>)
    requires Mentions(a, names) && Mentions(b, names)
    ensures Mentions(Plus(a, b), names) && Mentions(Minus(a, b), names)
    ensures Mentions(Negate(a), names) && Mentions(Scale(a, k), names)
  {
    hide Val;
    AddTermsNames(a.coeffs, b.coeffs, names);
    NegTermsNames(a.coeffs, names);
    NegTermsNames(b.coeffs, names);
    NegTermsShape(b.coeffs);
    AddTermsNames(a.coeffs, Negate(b).coeffs, names);
    forall t | t in Scale(a, k).coeffs ensures t.v in names {
      var i :| 0 <= i < |Scale(a, k).coeffs| && Scale(a, k).coeffs[i] == t;
      assert a.coeffs[i] in a.coeffs;
    }
  }

  lemma NegTermsNames(ts: seq<Term>, names: iset<string>)
    requires NamesIn(ts, names)
    ensures NamesIn(NegTerms(ts), names)
  {
    forall t | t in NegTerms(ts) ensures t.v in names {
      var i :| 0 <= i < |ts| && NegTerms(ts)[i] == t;
      assert ts[i] in ts;
    }
  }

  /** The value of an expression depends on its own variables only. */
  lemma {:induction false} EvalAgrees(ts: seq<Term>, s: Valuation, s': Valuation, names: iset<string>)
    requires NamesIn(ts, names) && forall v :: v in names ==> s(v) == s'(v)
    ensures EvalTerms(ts, s) == EvalTerms(ts, s')
  {
    hide Val, Prod;
    if ts != [] {
      assert ts[0] in ts;
      EvalAgrees(ts[1..], s, s', names);
    }
  }

  // ---- the printed form --------------------------------------------------------------------------

  function RatText(r: Rat): string {
    if r.d == 1 then IntText(r.n) else IntText(r.n) + ['/'] + IntText(r.d)
  }

  function TermText(t: Term): string {
    RatText(t.c) + ['*'] + t.v
  }

  function TermTexts(ts: seq<Term>): (r: seq<string>)
    ensures |r| == |ts| && forall i :: 0 <= i < |ts| ==> r[i] == TermText(ts[i])
  {
    seq(|ts|, i requires 0 <= i < |ts| => TermText(ts[i]))
  }

  /** `parts.join(' + ')`. */
  function JoinPlus(parts: seq<string>): string {
    if parts == [] then "" else if |parts| == 1 then parts[0] else parts[0] + " + " + JoinPlus(parts[1..])
  }

  function Parts(l: Linear): (r: seq<string>)
    ensures |r| > 0
  {
    TermTexts(l.coeffs) + if !IsZero(l.constant) || |l.coeffs| == 0 then [RatText(l.constant)] else []
  }

  function LinearText(l: Linear): string {
    JoinPlus(Parts(l))
  }

  ghost predicate Plain(name: string) {
    ' ' !in name
  }

  ghost predicate PlainNames(l: Linear) {
    forall t :: t in l.coeffs ==> Plain(t.v)
  }

  predicate RatChar(c: char) {
    IsDigit(c) || c == '-' || c == '/'
  }

  lemma RatTextChars(r: Rat)
    ensures forall c :: c in RatText(r) ==> RatChar(c)
  {
    hide Lowest;
    assert forall c :: c in IntText(r.n) ==> RatChar(c);
    assert forall c :: c in IntText(r.d) ==> RatChar(c);
  }

  lemma RatTextInjective(a: Rat, b: Rat)
    requires RatText(a) == RatText(b)
    ensures a == b
  {
    var x, y := IntText(a.n), IntText(b.n);
    assert '/' !in x && '/' !in y;
    SlashShown(a);
    SlashShown(b);
    if a.d != 1 && b.d != 1 {
      SplitUnique(x, IntText(a.d), '/', y, IntText(b.d));
      IntTextInjective(a.d, b.d);
    }
    IntTextInjective(a.n, b.n);
  }

  lemma SlashShown(a: Rat)
    ensures '/' in RatText(a) <==> a.d != 1
  {
    if a.d != 1 {
      assert RatText(a)[|IntText(a.n)|] == '/';
    }
  }

  lemma TermTextInjective(a: Term, b: Term)
    requires TermText(a) == TermText(b)
    ensures a == b
  {
    RatTextChars(a.c);
    RatTextChars(b.c);
    SplitUnique(RatText(a.c), a.v, '*', RatText(b.c), b.v);
    RatTextInjective(a.c, b.c);
  }

  ghost predicate Unspaced(parts: seq<string>) {
    forall i :: 0 <= i < |parts| ==> ' ' !in parts[i]
  }

  lemma {:induction false} JoinInjective(p: seq<string>, q: seq<string>)
    requires |p| > 0 && |q| > 0 && Unspaced(p) && Unspaced(q) && JoinPlus(p) == JoinPlus(q)
    ensures p == q
  {
    if |p| == 1 && |q| == 1 {
      assert p == [p[0]] && q == [q[0]];
    } else {
      SpaceInJoin(p);
      SpaceInJoin(q);
      var x, y := ['+', ' '] + JoinPlus(p[1..]), ['+', ' '] + JoinPlus(q[1..]);
      assert JoinPlus(p) == p[0] + [' '] + x;
      assert JoinPlus(q) == q[0] + [' '] + y;
      SplitUnique(p[0], x, ' ', q[0], y);
      assert x[2..] == JoinPlus(p[1..]) && y[2..] == JoinPlus(q[1..]);
      JoinInjective(p[1..], q[1..]);
      assert p == [p[0]] + p[1..] && q == [q[0]] + q[1..];
    }
  }

  lemma SpaceInJoin(p: seq<string>)
    requires |p| > 0 && Unspaced(p)
    ensures |p| > 1 <==> ' ' in JoinPlus(p)
  {
    if |p| > 1 {
      assert JoinPlus(p)[|p[0]|] == ' ';
    }
  }

  lemma PartsUnspaced(l: Linear)
    requires PlainNames(l)
    ensures Unspaced(Parts(l))
  {
    RatTextChars(l.constant);
    forall i | 0 <= i < |Parts(l)| ensures ' ' !in Parts(l)[i] {
      if i < |l.coeffs| {
        assert l.coeffs[i] in l.coeffs;
        RatTextChars(l.coeffs[i].c);
      }
    }
  }

  /** For expressions whose variable names hold no blank, the printed form determines the
      expression: every coefficient, the order of the terms and the constant. */
  lemma LinearTextInjective(a: Linear, b: Linear)
    requires PlainNames(a) && PlainNames(b) && LinearText(a) == LinearText(b)
    ensures a == b
  {
    PartsUnspaced(a);
    PartsUnspaced(b);
    JoinInjective(Parts(a), Parts(b));
    SameParts(a, b);
  }

  lemma SameParts(a: Linear, b: Linear)
    requires Parts(a) == Parts(b)
    ensures a == b
  {
    hide Val, Lowest;
    SameCount(a, b);
    var p := Parts(a);
    forall i | 0 <= i < |a.coeffs| ensures a.coeffs[i] == b.coeffs[i] {
      assert p[i] == TermText(a.coeffs[i]) && Parts(b)[i] == TermText(b.coeffs[i]);
      TermTextInjective(a.coeffs[i], b.coeffs[i]);
    }
    if |p| == |a.coeffs| {
      Canonical(a.constant, b.constant);
    } else {
      assert p[|a.coeffs|] == RatText(a.constant) && Parts(b)[|b.coeffs|] == RatText(b.constant);
      RatTextInjective(a.constant, b.constant);
    }
  }

  lemma SameCount(a: Linear, b: Linear)
    requires Parts(a) == Parts(b)
    ensures |a.coeffs| == |b.coeffs|
  {
    hide *;
    StarMarksTerm(a);
    StarMarksTerm(b);
    var p, m, n := Parts(a), |a.coeffs|, |b.coeffs|;
    assert forall i :: 0 <= i < |p| ==> (i < m <==> '*' in p[i]);
    var k := if m < n then m else n;
    assert k < |p| ==> ('*' in p[k] <==> k < m) && ('*' in p[k] <==> k < n);
  }

  lemma StarMarksTerm(l: Linear)
    ensures |l.coeffs| <= |Parts(l)|
    ensures forall i :: 0 <= i < |Parts(l)| ==> ('*' in Parts(l)[i] <==> i < |l.coeffs|)
  {
    RatTextChars(l.constant);
    forall i | 0 <= i < |Parts(l)| ensures '*' in Parts(l)[i] <==> i < |l.coeffs| {
      if i < |l.coeffs| {
        assert Parts(l)[i][|RatText(l.coeffs[i].c)|] == '*';
      }
    }
  }
}
