/** What the verifier's terms and formulas denote, and the fragment of programs it is sound for. */
module Denotation {
  import opened Rational
  import opened LinearExpr
  import opened Formulas
  import opened Programs
  import opened VcGen
  import opened Text

  type Assignment = string -> real

  /** The number a symbolic scope gives a name under a valuation of the symbols. */
  ghost function Vals(env: Env, s: Valuation): Assignment {
    x => if x in env then Eval(env[x], s) else s(x)
  }

  ghost function Ratio0(l: real, r: real): real {
    if r == 0.0 then 0.0 else l / r
  }

  /** The value of an expression as a total function of the values of its names. */
  ghost function DenNum(e: Expr, v: Assignment): real {
    match e
    case Num(value, _) => Val(value)
    case Ident(x) => v(x)
    case Neg(a) => -DenNum(a, v)
    case Bin(Plus, a, b) => DenNum(a, v) + DenNum(b, v)
    case Bin(Minus, a, b) => DenNum(a, v) - DenNum(b, v)
    case Bin(Times, a, b) => Prod(DenNum(a, v), DenNum(b, v))
    case Bin(Divide, a, b) => Ratio0(DenNum(a, v), DenNum(b, v))
    case Old(a) => v(OldKey(a))
    case _ => 0.0
  }

  ghost predicate DenTest(e: Expr, v: Assignment) {
    match e
    case BoolLit(b) => b
    case Not(a) => !DenTest(a, v)
    case Logic(isAnd, a, b) => if isAnd then DenTest(a, v) && DenTest(b, v) else DenTest(a, v) || DenTest(b, v)
    case Bin(op, a, b) => Compare(op, DenNum(a, v), DenNum(b, v)) == Some(true)
    case _ => false
  }

  ghost predicate DenAll(es: seq<Expr>, v: Assignment) {
    forall e :: e in es ==> DenTest(e, v)
  }

  // ---- the symbolic side denotes ---------------------------------------------------------------------

  lemma {:induction false} LinearDenotes(e: Expr, env: Env, s: Valuation)
    requires ToLinear(e, env).unknowns == {}
    ensures Eval(ToLinear(e, env).l, s) == DenNum(e, Vals(env, s))
  {
    hide Eval, Val, Prod, Ratio0, SyntaxKey;
    match e
    case Num(value, _) => ConstantEval(value, s);
    case Ident(x) => if x !in env { VariableEval(x, s); }
    case Neg(a) =>
      LinearDenotes(a, env, s);
      NegateEval(ToLinear(a, env).l, s);
    case Bin(Plus, a, b) =>
      LinearDenotes(a, env, s);
      LinearDenotes(b, env, s);
      PlusEval(ToLinear(a, env).l, ToLinear(b, env).l, s);
    case Bin(Minus, a, b) =>
      LinearDenotes(a, env, s);
      LinearDenotes(b, env, s);
      MinusEval(ToLinear(a, env).l, ToLinear(b, env).l, s);
    case Bin(Times, a, b) =>
      LinearDenotes(a, env, s);
      LinearDenotes(b, env, s);
      ProductDenotes(ToLinear(a, env).l, ToLinear(b, env).l, s);
    case Bin(Divide, a, b) =>
      LinearDenotes(b, env, s);
      var l, r := ToLinear(a, env), ToLinear(b, env);
      if IsConstant(r.l) && !IsZero(r.l.constant) {
        LinearDenotes(a, env, s);
        QuotientDenotes(l.l, r.l, s);
      }
    case Old(a) => if OldKey(a) !in env { VariableEval(OldKey(a), s); }
    case _ =>
  }

  lemma ConstantValue(l: Linear, s: Valuation)
    requires IsConstant(l)
    ensures Eval(l, s) == Val(l.constant)
  {
  }

  lemma ProductDenotes(l: Linear, r: Linear, s: Valuation)
    ensures IsConstant(l) ==> Eval(Scale(r, l.constant), s) == Prod(Eval(l, s), Eval(r, s))
    ensures IsConstant(r) ==> Eval(Scale(l, r.constant), s) == Prod(Eval(l, s), Eval(r, s))
  {
    hide Eval, Val, Scale;
    if IsConstant(l) {
      ConstantValue(l, s);
      ScaleEval(r, l.constant, s);
    }
    if IsConstant(r) {
      ConstantValue(r, s);
      ScaleEval(l, r.constant, s);
    }
  }

  lemma QuotientDenotes(l: Linear, r: Linear, s: Valuation)
    requires IsConstant(r) && r.constant.n != 0
    ensures Eval(Scale(l, Div(One(), r.constant)), s) == Ratio0(Eval(l, s), Eval(r, s))
  {
    hide Eval, Val, Scale;
    ConstantValue(r, s);
    NonZeroValue(r.constant);
    ScaleEval(l, Div(One(), r.constant), s);
    InverseTimes(Eval(l, s), Val(r.constant));
  }

  lemma InverseTimes(x: real, y: real)
    requires y != 0.0
    ensures Prod(x, 1.0 / y) == Ratio0(x, y)
  {
  }

  lemma {:induction false} FormulaDenotes(e: Expr, env: Env, m: Interp)
    requires ToFormula(e, env).unknowns == {}
    ensures Models(ToFormula(e, env).f, m) <==> DenTest(e, Vals(env, m.num))
  {
    hide SyntaxKey, DenNum, ToLinear, Eval, Conj, Disj, Negated, Vals;
    match e
    case Not(a) =>
      FormulaDenotes(a, env, m);
      NegatedMeans(ToFormula(a, env).f, m);
    case Logic(isAnd, a, b) =>
      FormulaDenotes(a, env, m);
      FormulaDenotes(b, env, m);
      Conj2Means(ToFormula(a, env).f, ToFormula(b, env).f, m);
      Disj2Means(ToFormula(a, env).f, ToFormula(b, env).f, m);
    case Bin(op, a, b) =>
      if IsComparison(op) {
        LinearDenotes(a, env, m.num);
        LinearDenotes(b, env, m.num);
        ComparisonDenotes(op, ToLinear(a, env).l, ToLinear(b, env).l, m);
      }
    case _ =>
  }

  lemma ComparisonDenotes(op: BinOp, l: Linear, r: Linear, m: Interp)
    requires IsComparison(op)
    ensures Models(Comparison(op, l, r), m) <==> Compare(op, Eval(l, m.num), Eval(r, m.num)) == Some(true)
  {
    hide Eval, LinearExpr.Minus;
    MinusEval(l, r, m.num);
    MinusEval(r, l, m.num);
    NegatedMeans(Atom(Eq, LinearExpr.Minus(l, r)), m);
  }

  lemma {:induction false} AllOfDenotes(es: seq<Expr>, env: Env, m: Interp)
    requires AllOf(es, env).unknowns == {}
    ensures Models(AllOf(es, env).f, m) <==> DenAll(es, Vals(env, m.num))
  {
    hide Models, DenTest, ToFormula, Conj, Vals;
    FormulasDenote(es, env, m);
    ConjMeans(ToFormulas(es, env).fs, m);
  }

  lemma {:induction false} FormulasDenote(es: seq<Expr>, env: Env, m: Interp)
    requires ToFormulas(es, env).unknowns == {}
    ensures AllHold(ToFormulas(es, env).fs, m) <==> DenAll(es, Vals(env, m.num))
  {
    hide Models, DenTest, ToFormula, Vals;
    if es != [] {
      FormulaDenotes(es[0], env, m);
      FormulasDenote(es[1..], env, m);
      var f, fs := ToFormula(es[0], env).f, ToFormulas(es[1..], env).fs;
      AllHoldAppend([f], fs, m);
      assert AllHold([f], m) <==> Models(f, m) by { assert f in [f]; }
      assert es == [es[0]] + es[1..];
    }
  }

  // ---- the concrete side denotes ------------------------------------------------------------------------

  /** The assignment gives the names of a view their values. */
  ghost predicate Reads(v: Assignment, view: View) {
    forall x :: x in view ==> v(x) == view[x]
  }

  /** What `old` captured on entry is what the assignment gives the captured keys. */
  ghost predicate Remembers(v: Assignment, args: seq<Expr>, entry: Option<View>) {
    entry.Some? ==>
      forall a :: a in args && EvalNum(a, entry.value, None).Some? ==>
        v(OldKey(a)) == EvalNum(a, entry.value, None).value
  }

  lemma {:induction false} NumAgrees(e: Expr, view: View, entry: Option<View>, v: Assignment)
    requires Reads(v, view) && Remembers(v, OldArgs(e), entry)
    ensures EvalNum(e, view, entry).Some? ==> EvalNum(e, view, entry).value == DenNum(e, v)
  {
    hide Val, SyntaxKey;
    match e
    case Neg(a) => NumAgrees(a, view, entry, v);
    case Bin(op, a, b) =>
      NumAgrees(a, view, entry, v);
      NumAgrees(b, view, entry, v);
    case _ =>
  }

  lemma {:induction false} TestAgrees(e: Expr, view: View, entry: Option<View>, v: Assignment)
    requires Reads(v, view) && Remembers(v, OldArgs(e), entry)
    ensures EvalTest(e, view, entry).Some? ==> EvalTest(e, view, entry).value == DenTest(e, v)
  {
    hide Val, SyntaxKey, EvalNum, DenNum;
    match e
    case Not(a) => TestAgrees(a, view, entry, v);
    case Logic(_, a, b) =>
      TestAgrees(a, view, entry, v);
      TestAgrees(b, view, entry, v);
    case Bin(op, a, b) =>
      NumAgrees(a, view, entry, v);
      NumAgrees(b, view, entry, v);
    case _ =>
  }

  // ---- when evaluation cannot fail ------------------------------------------------------------------------

  /** The names an expression reads where it stands, not through `old`. */
  ghost function CurrentNames(e: Expr): set<string> {
    match e
    case Ident(x) => {x}
    case Neg(a) => CurrentNames(a)
    case Not(a) => CurrentNames(a)
    case Bin(_, a, b) => CurrentNames(a) + CurrentNames(b)
    case Logic(_, a, b) => CurrentNames(a) + CurrentNames(b)
    case _ => {}
  }

  ghost predicate AllEvaluate(args: seq<Expr>, entry: Option<View>) {
    forall a :: a in args ==> entry.Some? && EvalNum(a, entry.value, None).Some?
  }

  /** The captured values an expression reads are there, and the assignment has them. */
  ghost predicate Recalls(v: Assignment, e: Expr, entry: Option<View>) {
    AllEvaluate(OldArgs(e), entry) && Remembers(v, OldArgs(e), entry)
  }

  lemma RecallsParts(v: Assignment, e: Expr, a: Expr, b: Expr, entry: Option<View>)
    requires Recalls(v, e, entry) && OldArgs(e) == OldArgs(a) + OldArgs(b)
    ensures Recalls(v, a, entry) && Recalls(v, b, entry)
  {
    hide EvalNum, OldKey, OldArgs;
    assert forall x :: x in OldArgs(a) || x in OldArgs(b) ==> x in OldArgs(e);
  }

  lemma DivisorNotZero(e: Expr, b: Expr, view: View, entry: Option<View>, env: Env, s: Valuation)
    requires e.Bin? && e.op.Divide? && e.right == b && ToLinear(e, env).unknowns == {}
    requires Reads(Vals(env, s), view) && Recalls(Vals(env, s), b, entry)
    ensures ToLinear(b, env).unknowns == {} && ToLinear(e.left, env).unknowns == {}
    ensures EvalNum(b, view, entry).Some? ==> EvalNum(b, view, entry).value != 0.0
  {
    hide Eval, Val, SyntaxKey, Vals, Reads, EvalNum, OldArgs, DenNum, Scale, Div;
    var r := ToLinear(b, env);
    assert IsConstant(r.l) && !IsZero(r.l.constant);
    NumAgrees(b, view, entry, Vals(env, s));
    LinearDenotes(b, env, s);
    ConstantValue(r.l, s);
    NonZeroValue(r.l.constant);
  }

  /** A term translated without unknowns has a value wherever its names are bound: a divisor that is a
      non-zero constant to the verifier is not zero when the program gets there. */
  lemma {:induction false} NumEvaluates(e: Expr, view: View, entry: Option<View>, env: Env, s: Valuation)
    requires ToLinear(e, env).unknowns == {} && CurrentNames(e) <= view.Keys
    requires Reads(Vals(env, s), view) && Recalls(Vals(env, s), e, entry)
    ensures EvalNum(e, view, entry).Some?
  {
    hide Eval, Val, SyntaxKey, Vals, Reads, Recalls, Scale, Negate, LinearExpr.Plus, LinearExpr.Minus, Div, IsConstant;
    match e
    case Neg(a) =>
      RecallsParts(Vals(env, s), e, a, BoolLit(true), entry);
      NumEvaluates(a, view, entry, env, s);
    case Bin(op, a, b) =>
      RecallsParts(Vals(env, s), e, a, b, entry);
      if op.Divide? {
        DivisorNotZero(e, b, view, entry, env, s);
      }
      NumEvaluates(a, view, entry, env, s);
      NumEvaluates(b, view, entry, env, s);
    case Old(a) => OldRecalled(Vals(env, s), e, a, entry);
    case _ =>
  }

  lemma OldRecalled(v: Assignment, e: Expr, a: Expr, entry: Option<View>)
    requires e == Old(a) && Recalls(v, e, entry)
    ensures entry.Some? && EvalNum(a, entry.value, None).Some?
  {
    assert a in OldArgs(e);
  }

  /** And so has a test. */
  lemma {:induction false} TestEvaluates(e: Expr, view: View, entry: Option<View>, env: Env, s: Valuation)
    requires ToFormula(e, env).unknowns == {} && CurrentNames(e) <= view.Keys
    requires Reads(Vals(env, s), view) && Recalls(Vals(env, s), e, entry)
    ensures EvalTest(e, view, entry).Some?
  {
    hide EvalNum, ToLinear, SyntaxKey, Vals, Reads, Recalls, Conj, Disj, Negated, Comparison;
    match e
    case Not(a) =>
      RecallsParts(Vals(env, s), e, a, BoolLit(true), entry);
      TestEvaluates(a, view, entry, env, s);
    case Logic(_, a, b) =>
      RecallsParts(Vals(env, s), e, a, b, entry);
      TestEvaluates(a, view, entry, env, s);
      TestEvaluates(b, view, entry, env, s);
    case Bin(op, a, b) =>
      RecallsParts(Vals(env, s), e, a, b, entry);
      NumEvaluates(a, view, entry, env, s);
      NumEvaluates(b, view, entry, env, s);
    case _ =>
  }

  // ---- names --------------------------------------------------------------------------------------------

  /** Every name whose value an expression reads. */
  ghost function NamesOf(e: Expr): set<string> {
    match e
    case Ident(x) => {x}
    case Neg(a) => NamesOf(a)
    case Not(a) => NamesOf(a)
    case Bin(_, a, b) => NamesOf(a) + NamesOf(b)
    case Logic(_, a, b) => NamesOf(a) + NamesOf(b)
    case Old(a) => {OldKey(a)}
    case _ => {}
  }

  ghost predicate AllNamed(es: seq<Expr>, names: set<string>) {
    forall e :: e in es ==> NamesOf(e) <= names
  }

  ghost predicate NamesAre(names: set<string>) {
    forall x :: x in names ==> Name(x)
  }

  lemma OldKeyNoName(a: Expr)
    ensures !Name(OldKey(a))
  {
    assert OldKey(a)[3] == '(';
  }

  /** Outside `old`, the names read are the names read now; an identifier is no captured key. */
  lemma {:induction false} NoOldInside(e: Expr)
    requires NamesAre(NamesOf(e))
    ensures OldArgs(e) == [] && CurrentNames(e) == NamesOf(e)
  {
    hide SyntaxKey;
    match e
    case Neg(a) => NoOldInside(a);
    case Not(a) => NoOldInside(a);
    case Bin(_, a, b) => NoOldInside(a); NoOldInside(b);
    case Logic(_, a, b) => NoOldInside(a); NoOldInside(b);
    case Old(a) => OldKeyNoName(a);
    case _ =>
  }

  ghost predicate SameOn(v: Assignment, w: Assignment, names: set<string>) {
    forall x :: x in names ==> v(x) == w(x)
  }

  lemma {:induction false} DenNumLocal(e: Expr, v: Assignment, w: Assignment)
    requires SameOn(v, w, NamesOf(e))
    ensures DenNum(e, v) == DenNum(e, w)
  {
    hide Val, SyntaxKey, Prod, Ratio0;
    match e
    case Neg(a) => DenNumLocal(a, v, w);
    case Bin(_, a, b) => DenNumLocal(a, v, w); DenNumLocal(b, v, w);
    case _ =>
  }

  lemma {:induction false} DenTestLocal(e: Expr, v: Assignment, w: Assignment)
    requires SameOn(v, w, NamesOf(e))
    ensures DenTest(e, v) == DenTest(e, w)
  {
    hide DenNum;
    match e
    case Not(a) => DenTestLocal(a, v, w);
    case Bin(_, a, b) => DenNumLocal(a, v, w); DenNumLocal(b, v, w);
    case Logic(_, a, b) => DenTestLocal(a, v, w); DenTestLocal(b, v, w);
    case _ =>
  }

  lemma DenAllLocal(es: seq<Expr>, v: Assignment, w: Assignment, names: set<string>)
    requires AllNamed(es, names) && SameOn(v, w, names)
    ensures DenAll(es, v) == DenAll(es, w)
  {
    hide DenTest;
    forall e | e in es ensures DenTest(e, v) == DenTest(e, w) {
      DenTestLocal(e, v, w);
    }
  }

  predicate NameChar(c: char) {
    'a' <= c <= 'z' || 'A' <= c <= 'Z' || '0' <= c <= '9' || c == '_'
  }

  /** An identifier. */
  predicate Name(x: string) {
    forall i :: 0 <= i < |x| ==> NameChar(x[i])
  }

  ghost predicate FreshFrom(v: string, k: nat) {
    exists prefix: char, x: string, j: nat :: FreshAs(v, prefix, x, j) && j >= k
  }

  ghost predicate FreshAs(v: string, prefix: char, x: string, j: nat) {
    v == Fresh(prefix, x, j) && (prefix == '$' || prefix == '?')
  }

  lemma FreshParts(prefix: char, x: string, j: nat, prefix': char, x': string, j': nat)
    requires Fresh(prefix, x, j) == Fresh(prefix', x', j')
    ensures prefix == prefix' && x == x' && j == j'
  {
    LastSplitUnique([prefix] + x, Digits(j), '#', [prefix'] + x', Digits(j'));
    DigitsInjective(j, j');
    assert ([prefix] + x)[1..] == x && ([prefix'] + x')[1..] == x';
  }

  /** The symbols a condition may use while the next fresh number is k. */
  ghost function NamesBelow(k: nat): iset<string> {
    iset v: string | Plain(v) && !FreshFrom(v, k)
  }

  lemma FreshWeaken(v: string, k: nat, k': nat)
    requires FreshFrom(v, k') && k <= k'
    ensures FreshFrom(v, k)
  {
    var prefix: char, x: string, j: nat :| FreshAs(v, prefix, x, j) && j >= k';
    assert FreshAs(v, prefix, x, j) && j >= k;
  }

  lemma BelowGrows(k: nat, k': nat)
    requires k <= k'
    ensures NamesBelow(k) <= NamesBelow(k')
  {
    forall v | v in NamesBelow(k) ensures v in NamesBelow(k') {
      if FreshFrom(v, k') {
        FreshWeaken(v, k, k');
        assert false;
      }
    }
  }

  lemma FreshStart(v: string, k: nat)
    requires FreshFrom(v, k)
    ensures |v| > 0 && (v[0] == '$' || v[0] == '?')
  {
    var prefix: char, x: string, j: nat :| FreshAs(v, prefix, x, j) && j >= k;
  }

  lemma NameBelow(x: string, k: nat)
    requires Name(x)
    ensures x in NamesBelow(k)
  {
    assert Plain(x);
    if FreshFrom(x, k) {
      FreshStart(x, k);
      assert false;
    }
  }

  lemma FreshStamp(prefix: char, x: string, k: nat, k': nat)
    requires FreshFrom(Fresh(prefix, x, k), k')
    ensures k' <= k
  {
    var prefix', x', j: nat :| FreshAs(Fresh(prefix, x, k), prefix', x', j) && j >= k';
    FreshParts(prefix, x, k, prefix', x', j);
  }

  lemma FreshBelow(prefix: char, x: string, k: nat)
    requires Plain(x) && (prefix == '$' || prefix == '?')
    ensures Fresh(prefix, x, k) in NamesBelow(k + 1)
  {
    var v := Fresh(prefix, x, k);
    assert Plain(v) by {
      assert forall i :: 0 <= i < |Digits(k)| ==> IsDigit(Digits(k)[i]);
    }
    if FreshFrom(v, k + 1) {
      FreshStamp(prefix, x, k, k + 1);
      assert false;
    }
  }

  lemma FreshNotBelow(prefix: char, x: string, k: nat, k': nat)
    requires (prefix == '$' || prefix == '?') && k' <= k
    ensures Fresh(prefix, x, k) !in NamesBelow(k')
  {
    assert FreshAs(Fresh(prefix, x, k), prefix, x, k);
  }
}
