/** The verifier's entry: a function goes in, a verdict on each of its conditions comes out, and what the
    verdicts are worth. */
module Verdicts {
  import opened Formulas
  import opened FourierMotzkin
  import opened Programs
  import opened VcGen
  import opened Denotation
  import opened Fragment
  import opened Soundness
  import opened Descent
  import opened Termination
  import opened Counterexample

  datatype Verdict = TooManyPaths | Verdict(kind: Kind, result: Answer, approximate: bool)

  predicate AllProved(verdicts: seq<Verdict>) {
    forall i :: 0 <= i < |verdicts| ==> verdicts[i].Verdict? && verdicts[i].result == Yes
  }

  /** No path was cut, and every condition was proved or refuted. */
  predicate Decided(verdicts: seq<Verdict>) {
    forall i :: 0 <= i < |verdicts| ==> verdicts[i].Verdict? && verdicts[i].result != Unknown
  }

  predicate SomeRefuted(verdicts: seq<Verdict>) {
    exists i :: 0 <= i < |verdicts| && verdicts[i].Verdict? && verdicts[i].result == No
  }

  function VerdictOn(c: Condition, maxAtoms: nat, budget: nat): Verdict {
    Verdict(c.kind, Judge(c.formula, maxAtoms, budget), Approximate(c.formula))
  }

  /** Every call over these globals whose precondition holds, and that ends, ends with no postcondition false
      and each true that reads what is sure to be bound there. */
  ghost predicate KeepsItsWord(fn: Function, globals: set<string>) {
    forall g: View, args: View, fuel: nat ::
      CalledRight(fn, globals, g, args) && Call(fn, g, args, fuel).Some? ==> Fulfilled(fn, g, args, Call(fn, g, args, fuel).value)
  }

  ghost predicate CalledRight(fn: Function, globals: set<string>, g: View, args: View) {
    && g.Keys == globals && args.Keys == (set p | p in fn.params)
    && forall r :: r in fn.requires_ ==> EvalTest(r, g + args, None) == Some(true)
  }

  ghost predicate Fulfilled(fn: Function, g: View, args: View, final: View) {
    forall e :: e in fn.ensures_ ==>
      && EvalTest(e, final, Some(g + args)) != Some(false)
      && (CurrentNames(e) <= AtEnd(fn, g.Keys) ==> EvalTest(e, final, Some(g + args)) == Some(true))
  }

  /** In every such call, ended or not, every pass of every annotated loop starts with its variant at or above
      zero and leaves it lower; and the call does not fail where the verifier has looked at everything. */
  ghost predicate LoopsDescend(fn: Function, globals: set<string>) {
    forall g: View, args: View, fuel: nat :: CalledRight(fn, globals, g, args) ==> CallDescends(fn, g, args, fuel)
  }

  ghost predicate CallDescends(fn: Function, g: View, args: View, fuel: nat) {
    && SeqDescends(fn.body, [g, args], fuel)
    && (AllExamined(fn.body) ==> ExecSeq(fn.body, [g, args], fuel) != Stuck)
  }

  /** Every such call on whole numbers ends. */
  ghost predicate EndsOnWholes(fn: Function, globals: set<string>) {
    forall g: View, args: View :: CalledRight(fn, globals, g, args) && WholeView(g) && WholeView(args) ==> CallEnds(fn, g, args)
  }

  ghost predicate CallEnds(fn: Function, g: View, args: View) {
    exists fuel: nat :: ExecSeq(fn.body, [g, args], fuel) != Timeout
  }

  /** What it is worth that a function is proved. */
  ghost predicate Warranted(fn: Function, globals: set<string>) {
    KeepsItsWord(fn, globals) && LoopsDescend(fn, globals) && (AllCount(fn.body) ==> EndsOnWholes(fn, globals))
  }

  lemma ProvedWarrants(fn: Function, globals: set<string>, maxAtoms: nat, budget: nat)
    requires OkFunction(fn, globals) && Proved(fn, maxAtoms, budget) && Conditions(fn).unknowns == {}
    ensures Warranted(fn, globals)
  {
    hide OkFunction, Proved, Conditions, KeepsItsWord, SeqDescends, ExecSeq, EvalTest, AllExamined, AllCount, WholeView;
    ProvedKeeps(fn, globals, maxAtoms, budget);
    forall g: View, args: View, fuel: nat | CalledRight(fn, globals, g, args) ensures CallDescends(fn, g, args, fuel) {
      FunctionDescends(fn, g, args, fuel, maxAtoms, budget);
    }
    if AllCount(fn.body) {
      forall g: View, args: View | CalledRight(fn, globals, g, args) && WholeView(g) && WholeView(args)
        ensures CallEnds(fn, g, args)
      {
        var fuel := FunctionEnds(fn, g, args, maxAtoms, budget);
      }
    }
  }

  /** A refuted condition of a function without loops: some call does not keep the function's word. */
  lemma RefutedFails(fn: Function, globals: set<string>, c: Condition, maxAtoms: nat, budget: nat)
    requires Direct(fn, globals) && Conditions(fn).unknowns == {} && !Conditions(fn).tooMany
    requires c in Conditions(fn).conditions && Judge(c.formula, maxAtoms, budget) == No
    ensures !KeepsItsWord(fn, globals)
  {
    hide Direct, Conditions, Judge, Call, EvalTest, AtEnd, CurrentNames, RationalView;
    var g, args := RefutedBreaks(fn, globals, c, maxAtoms, budget);
    assert CalledRight(fn, globals, g, args);
    var e :| e in fn.ensures_ && EvalTest(e, Call(fn, g, args, 0).value, Some(g + args)) == Some(false);
    assert !Fulfilled(fn, g, args, Call(fn, g, args, 0).value);
  }

  lemma ProvedKeeps(fn: Function, globals: set<string>, maxAtoms: nat, budget: nat)
    requires OkFunction(fn, globals) && Proved(fn, maxAtoms, budget) && Conditions(fn).unknowns == {}
    ensures KeepsItsWord(fn, globals)
  {
    hide OkFunction, Proved, Conditions, Call, EvalTest, AtEnd, CurrentNames;
    forall g: View, args: View, fuel: nat | CalledRight(fn, globals, g, args) && Call(fn, g, args, fuel).Some?
      ensures Fulfilled(fn, g, args, Call(fn, g, args, fuel).value)
    {
      FunctionSound(fn, g, args, fuel, maxAtoms, budget);
    }
  }

  lemma VerdictsRefute(fn: Function, globals: set<string>, verdicts: seq<Verdict>, maxAtoms: nat, budget: nat)
    requires Direct(fn, globals) && Conditions(fn).unknowns == {} && SomeRefuted(verdicts)
    requires Conditions(fn).tooMany ==> verdicts == [TooManyPaths]
    requires !Conditions(fn).tooMany ==>
      && |verdicts| == |Conditions(fn).conditions|
      && forall i :: 0 <= i < |verdicts| ==> verdicts[i] == VerdictOn(Conditions(fn).conditions[i], maxAtoms, budget)
    ensures !KeepsItsWord(fn, globals)
  {
    hide Direct, Conditions, Judge, Approximate, KeepsItsWord;
    var i :| 0 <= i < |verdicts| && verdicts[i].Verdict? && verdicts[i].result == No;
    RefutedFails(fn, globals, Conditions(fn).conditions[i], maxAtoms, budget);
  }

  lemma VerdictsMean(fn: Function, verdicts: seq<Verdict>, maxAtoms: nat, budget: nat)
    requires Conditions(fn).tooMany ==> verdicts == [TooManyPaths]
    requires !Conditions(fn).tooMany ==>
      && |verdicts| == |Conditions(fn).conditions|
      && forall i :: 0 <= i < |verdicts| ==> verdicts[i] == VerdictOn(Conditions(fn).conditions[i], maxAtoms, budget)
    ensures AllProved(verdicts) <==> Proved(fn, maxAtoms, budget)
  {
    hide Conditions, Judge, Approximate;
    if Conditions(fn).tooMany { assert !verdicts[0].Verdict?; }
  }

  /** Walks the body, reads the postcondition at every end, and judges what was recorded. When nothing became an
      unknown: if every verdict is that the condition is proved, a function of the fragment keeps its word and
      its loops descend; and a function without loops breaks its word if one verdict is that it is refuted. */
  method VerifyFunction(fn: Function, maxAtoms: nat, budget: nat) returns (verdicts: seq<Verdict>, unknowns: set<string>)
    ensures AllProved(verdicts) <==> Proved(fn, maxAtoms, budget)
    ensures !Conditions(fn).tooMany ==>
      && |verdicts| == |Conditions(fn).conditions|
      && forall i :: 0 <= i < |verdicts| ==> verdicts[i] == VerdictOn(Conditions(fn).conditions[i], maxAtoms, budget)
    ensures unknowns == Conditions(fn).unknowns
    ensures forall globals: set<string> ::
      AllProved(verdicts) && unknowns == {} && OkFunction(fn, globals) ==> Warranted(fn, globals)
    ensures forall globals: set<string> ::
      SomeRefuted(verdicts) && unknowns == {} && Direct(fn, globals) ==> !KeepsItsWord(fn, globals)
    ensures forall globals: set<string> ::
      Decided(verdicts) && unknowns == {} && Direct(fn, globals) ==> (AllProved(verdicts) <==> KeepsItsWord(fn, globals))
  {
    hide OkFunction, KeepsItsWord, Warranted, Direct, AllProved, Proved, Judge, AllOf, Run, SeedOlds, Implies, Conj, Approximate, Extends;
    var seeded := SeedOlds(OldArgsOf(fn.ensures_), SeedParams(fn.params));
    var pre := AllOf(fn.requires_, seeded.env);
    var v := new Verifier(seeded.unknowns + pre.unknowns);
    var ends := v.RunAll(fn.body, State(seeded.env, True, pre.f, false));
    if fn.ensures_ != [] {
      ghost var ran := v.Contents();
      for i := 0 to |ends|
        invariant Postconditions(ends[i..], fn.ensures_, pre.f, v.Contents()) == Postconditions(ends, fn.ensures_, pre.f, ran)
      {
        assert ends[i..][0] == ends[i] && ends[i..][1..] == ends[i + 1..];
        var post := AllOf(fn.ensures_, ends[i].env);
        v.Add(Postcondition, Implies(Conj([pre.f, ends[i].path]), post.f), post.unknowns);
      }
    }
    assert v.Contents() == Conditions(fn);
    unknowns := v.unknowns;
    if v.tooManyPaths {
      verdicts := [TooManyPaths];
    } else {
      verdicts := [];
      for i := 0 to |v.conditions|
        invariant |verdicts| == i && forall k :: 0 <= k < i ==> verdicts[k] == VerdictOn(v.conditions[k], maxAtoms, budget)
      {
        verdicts := verdicts + [VerdictOn(v.conditions[i], maxAtoms, budget)];
      }
    }
    VerdictsMean(fn, verdicts, maxAtoms, budget);
    forall globals: set<string> | AllProved(verdicts) && unknowns == {} && OkFunction(fn, globals)
      ensures Warranted(fn, globals)
    {
      ProvedWarrants(fn, globals, maxAtoms, budget);
    }
    forall globals: set<string> | SomeRefuted(verdicts) && unknowns == {} && Direct(fn, globals)
      ensures !KeepsItsWord(fn, globals)
    {
      VerdictsRefute(fn, globals, verdicts, maxAtoms, budget);
    }
    forall globals: set<string> | Decided(verdicts) && unknowns == {} && Direct(fn, globals)
      ensures AllProved(verdicts) <==> KeepsItsWord(fn, globals)
    {
      DirectIsOk(fn, globals);
      DecidedEither(verdicts);
      if AllProved(verdicts) { WarrantedKeeps(fn, globals); }
    }
  }

  lemma DirectIsOk(fn: Function, globals: set<string>)
    requires Direct(fn, globals)
    ensures OkFunction(fn, globals)
  {
  }

  lemma DecidedEither(verdicts: seq<Verdict>)
    requires Decided(verdicts)
    ensures AllProved(verdicts) || SomeRefuted(verdicts)
  {
  }

  lemma WarrantedKeeps(fn: Function, globals: set<string>)
    requires Warranted(fn, globals)
    ensures KeepsItsWord(fn, globals)
  {
  }
}
