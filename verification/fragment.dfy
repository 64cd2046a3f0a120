/** The programs the verifier is sound for, and what running one of them leaves alone. */
module Fragment {
  import opened Programs
  import opened VcGen
  import opened Denotation
  import opened Rational

  function Declared(stmt: Stmt): set<string> {
    if stmt.Declare? then {stmt.name} else {}
  }

  /** The fragment: every name used is in scope, nothing is shadowed, no variable of an outer scope that
      the symbolic scope does not track (a global) is assigned, `else` is followed by a block, and the only
      loop is `while`, with no way out of its body but its end. */
  ghost predicate OkStmt(stmt: Stmt, scope: set<string>, globals: set<string>)
    decreases stmt, 1
  {
    match stmt
    case Declare(x, e) => Name(x) && x !in scope && NamesOf(e) <= scope
    case Assign(x, e) => x in scope && x !in globals && NamesOf(e) <= scope
    case ExprStmt(e) => NamesOf(e) <= scope
    case Return(None) => true
    case Return(Some(e)) => NamesOf(e) <= scope
    case If(test, thn, alt) =>
      && NamesOf(test) <= scope && OkSeq(thn, scope, globals)
      && (alt.Some? ==> alt.value.Block? && OkSeq(alt.value.body, scope, globals))
    case Block(body) => OkSeq(body, scope, globals)
    case While(test, invariants, variant, body) =>
      && NamesOf(test) <= scope && AllNamed(invariants, scope)
      && (variant.Some? ==> NamesOf(variant.value) <= scope)
      && OkSeq(body, scope, globals) && NoReturns(body)
    case _ => false
  }

  ghost predicate OkSeq(stmts: seq<Stmt>, scope: set<string>, globals: set<string>)
    decreases stmts, 2
  {
    stmts == [] || (OkStmt(stmts[0], scope, globals) && OkSeq(stmts[1..], scope + Declared(stmts[0]), globals))
  }

  /** No loop anywhere in it, nor a jump out of one. */
  ghost predicate LoopFree(stmt: Stmt)
    decreases stmt, 1
  {
    match stmt
    case If(_, thn, alt) => LoopFreeAll(thn) && (alt.Some? ==> LoopFree(alt.value))
    case Block(body) => LoopFreeAll(body)
    case While(_, _, _, _) => false
    case ForRange(_, _, _, _, _) => false
    case Break => false
    case Continue => false
    case _ => true
  }

  ghost predicate LoopFreeAll(stmts: seq<Stmt>)
    decreases stmts, 2
  {
    stmts == [] || (LoopFree(stmts[0]) && LoopFreeAll(stmts[1..]))
  }

  /** A loop with neither an invariant nor a variant is not looked into. */
  predicate Annotated(loop: Stmt)
    requires loop.While?
  {
    loop.invariants != [] || loop.variant.Some?
  }

  /** Nothing the verifier passes over: no statement evaluated for its effect alone, every loop annotated. */
  ghost predicate Examined(stmt: Stmt)
    decreases stmt, 1
  {
    match stmt
    case ExprStmt(_) => false
    case If(_, thn, alt) => AllExamined(thn) && (alt.Some? ==> Examined(alt.value))
    case Block(body) => AllExamined(body)
    case While(_, _, _, body) => Annotated(stmt) && AllExamined(body)
    case _ => true
  }

  ghost predicate AllExamined(stmts: seq<Stmt>)
    decreases stmts, 2
  {
    stmts == [] || (Examined(stmts[0]) && AllExamined(stmts[1..]))
  }

  ghost predicate NoReturn(stmt: Stmt)
    decreases stmt, 1
  {
    match stmt
    case Return(_) => false
    case If(_, thn, alt) => NoReturns(thn) && (alt.Some? ==> NoReturn(alt.value))
    case Block(body) => NoReturns(body)
    case _ => true
  }

  ghost predicate NoReturns(stmts: seq<Stmt>)
    decreases stmts, 2
  {
    stmts == [] || (NoReturn(stmts[0]) && NoReturns(stmts[1..]))
  }

  /** No `return` without a value. */
  ghost predicate GivesValues(stmt: Stmt)
    decreases stmt, 1
  {
    match stmt
    case Return(e) => e.Some?
    case If(_, thn, alt) => AllGiveValues(thn) && (alt.Some? ==> GivesValues(alt.value))
    case Block(body) => AllGiveValues(body)
    case _ => true
  }

  ghost predicate AllGiveValues(stmts: seq<Stmt>)
    decreases stmts, 2
  {
    stmts == [] || (GivesValues(stmts[0]) && AllGiveValues(stmts[1..]))
  }

  /** Every path through the statement returns. */
  ghost predicate Returns(stmt: Stmt)
    decreases stmt, 1
  {
    match stmt
    case Return(_) => true
    case If(_, thn, alt) => SomeReturns(thn) && alt.Some? && Returns(alt.value)
    case Block(body) => SomeReturns(body)
    case _ => false
  }

  ghost predicate SomeReturns(stmts: seq<Stmt>)
    decreases stmts, 2
  {
    stmts != [] && (Returns(stmts[0]) || SomeReturns(stmts[1..]))
  }

  /** Every path through the body returns a value. */
  ghost predicate ReturnsValue(body: seq<Stmt>) {
    SomeReturns(body) && AllGiveValues(body)
  }

  // ---- what a run leaves alone ----------------------------------------------------------------------

  /** No visible name is lost or shadowed, and the globals keep their values. */
  ghost predicate Evolves(before: Store, after: Store, globals: set<string>) {
    && Grown(before, after)
    && (after[|after| - 1].Keys - before[|before| - 1].Keys) !! Visible(before).Keys
    && (forall x :: x in Visible(before) && x in globals ==> x in Visible(after) && Visible(after)[x] == Visible(before)[x])
  }

  lemma GrownKeys(before: Store, after: Store)
    requires Grown(before, after)
    ensures Visible(after).Keys == Visible(before).Keys + after[|after| - 1].Keys
  {
    var n := |before| - 1;
    SameKeysVisible(before[..n], after[..n]);
  }

  lemma EvolvesTransitive(a: Store, b: Store, c: Store, globals: set<string>)
    requires Evolves(a, b, globals) && Evolves(b, c, globals)
    ensures Evolves(a, c, globals)
  {
    GrownKeys(a, b);
    GrownKeys(b, c);
  }

  lemma EvolvesSame(st: Store, globals: set<string>)
    requires st != []
    ensures Evolves(st, st, globals)
  {
  }

  /** What an outcome may be in the fragment, and how the store has changed. */
  ghost predicate Kept(before: Store, o: Outcome, globals: set<string>, added: set<string>) {
    match o
    case Normal(st) => Evolves(before, st, globals) && Visible(st).Keys == Visible(before).Keys + added
    case Returned(st, _) => Evolves(before, st, globals)
    case Broke(_) => false
    case Continued(_) => false
    case _ => true
  }

  /** Leaving a block gives back exactly the outer scopes, with the values the block ended with. */
  lemma LeaveBlock(before: Store, after: Store, globals: set<string>)
    requires before != [] && Evolves(Push(before), after, globals)
    ensures Evolves(before, Pop(after), globals) && Visible(Pop(after)).Keys == Visible(before).Keys
    ensures forall x :: x in Visible(before) ==> x in Visible(after) && Visible(Pop(after))[x] == Visible(after)[x]
  {
    PushVisible(before);
    PopVisible(before, after);
    GrownKeys(Push(before), after);
    var n := |before|;
    assert Push(before)[n].Keys == {};
    assert after[n].Keys !! Visible(before).Keys;
    assert Pop(after)[n - 1].Keys == before[n - 1].Keys;
  }

  lemma AssignEvolves(st: Store, x: string, v: real, globals: set<string>)
    requires x in Visible(st) && x !in globals && st != []
    ensures Evolves(st, AssignIn(st, x, v), globals) && Visible(AssignIn(st, x, v)).Keys == Visible(st).Keys
  {
    AssignVisible(st, x, v);
  }

  lemma DeclareEvolves(st: Store, x: string, v: real, globals: set<string>)
    requires st != [] && x !in Visible(st)
    ensures Evolves(st, DeclareIn(st, x, v), globals) && Visible(DeclareIn(st, x, v)).Keys == Visible(st).Keys + {x}
  {
    DeclareVisible(st, x, v);
  }

  lemma {:induction false} StmtKeeps(stmt: Stmt, st: Store, fuel: nat, globals: set<string>)
    requires st != [] && OkStmt(stmt, Visible(st).Keys, globals)
    ensures Kept(st, ExecStmt(stmt, st, fuel), globals, Declared(stmt))
    ensures NoReturn(stmt) ==> !ExecStmt(stmt, st, fuel).Returned?
    decreases fuel, stmt, 1
  {
    hide EvalNum, EvalTest, Evolves, NamesOf, Visible;
    match stmt
    case Declare(x, e) =>
      var v := EvalNum(e, Visible(st), None);
      if v.Some? { DeclareEvolves(st, x, v.value, globals); }
    case Assign(x, e) =>
      var v := EvalNum(e, Visible(st), None);
      if v.Some? { AssignEvolves(st, x, v.value, globals); }
    case ExprStmt(e) => EvolvesSame(st, globals);
    case Return(_) => EvolvesSame(st, globals);
    case If(test, thn, alt) =>
      EvolvesSame(st, globals);
      BlockKeeps(thn, st, fuel, globals);
      if alt.Some? { AltKeeps(alt.value, st, fuel, globals); }
    case Block(body) => BlockKeeps(body, st, fuel, globals);
    case While(_, _, _, _) => WhileKeeps(stmt, st, fuel, globals);
    case _ =>
  }

  lemma {:induction false} AltKeeps(alt: Stmt, st: Store, fuel: nat, globals: set<string>)
    requires st != [] && alt.Block? && OkSeq(alt.body, Visible(st).Keys, globals)
    ensures Kept(st, ExecStmt(alt, st, fuel), globals, {})
    ensures NoReturn(alt) ==> !ExecStmt(alt, st, fuel).Returned?
    decreases fuel, alt, 1
  {
    BlockKeeps(alt.body, st, fuel, globals);
  }

  lemma {:induction false} BlockKeeps(body: seq<Stmt>, st: Store, fuel: nat, globals: set<string>)
    requires st != [] && OkSeq(body, Visible(st).Keys, globals)
    ensures Kept(st, ExecBlock(body, st, fuel), globals, {})
    ensures NoReturns(body) ==> !ExecBlock(body, st, fuel).Returned?
    decreases fuel, body, 2
  {
    hide Evolves, OkSeq, Visible;
    PushVisible(st);
    SeqKeeps(body, Push(st), fuel, globals);
    var o := ExecSeq(body, Push(st), fuel);
    if o.Normal? || o.Returned? {
      LeaveBlock(st, o.st, globals);
    }
  }

  lemma {:induction false} SeqKeeps(body: seq<Stmt>, st: Store, fuel: nat, globals: set<string>)
    requires st != [] && OkSeq(body, Visible(st).Keys, globals)
    ensures match ExecSeq(body, st, fuel)
      case Normal(st') => Evolves(st, st', globals)
      case Returned(st', _) => Evolves(st, st', globals) && !NoReturns(body)
      case Broke(_) => false
      case Continued(_) => false
      case _ => true
    decreases fuel, body, 0
  {
    hide Evolves, OkStmt, NoReturn, Visible, ExecStmt;
    if body == [] {
      EvolvesSame(st, globals);
    } else {
      StmtKeeps(body[0], st, fuel, globals);
      var o := ExecStmt(body[0], st, fuel);
      if o.Normal? {
        EvolvesNonempty(st, o.st, globals);
        SeqKeeps(body[1..], o.st, fuel, globals);
        var o' := ExecSeq(body[1..], o.st, fuel);
        if o'.Normal? || o'.Returned? {
          EvolvesTransitive(st, o.st, o'.st, globals);
        }
      }
    }
  }

  lemma EvolvesNonempty(a: Store, b: Store, globals: set<string>)
    requires Evolves(a, b, globals)
    ensures a != [] && b != []
  {
  }

  lemma {:induction false} WhileKeeps(loop: Stmt, st: Store, fuel: nat, globals: set<string>)
    requires st != [] && loop.While? && OkStmt(loop, Visible(st).Keys, globals)
    ensures Kept(st, ExecWhile(loop, st, fuel), globals, {})
    ensures !ExecWhile(loop, st, fuel).Returned?
    decreases fuel, loop, 0
  {
    hide Evolves, OkSeq, Visible, NamesOf, EvalTest, ExecBlock;
    EvolvesSame(st, globals);
    if fuel > 0 {
      BlockKeeps(loop.body, st, fuel - 1, globals);
      var o := ExecBlock(loop.body, st, fuel - 1);
      if o.Normal? {
        EvolvesNonempty(st, o.st, globals);
        assert Visible(o.st).Keys == Visible(st).Keys;
        WhileKeeps(loop, o.st, fuel - 1, globals);
        var o' := ExecWhile(loop, o.st, fuel - 1);
        if o'.Normal? {
          EvolvesTransitive(st, o.st, o'.st, globals);
        }
      }
    }
  }

  // ---- what is returned -------------------------------------------------------------------------------

  /** The outcome is no fall through when every path returns, and holds a value when every return does. */
  ghost predicate GoodReturn(o: Outcome, always: bool, values: bool) {
    && (always ==> !o.Normal?)
    && (values && o.Returned? ==> o.result.Some?)
  }

  lemma {:induction false} StmtReturns(stmt: Stmt, st: Store, fuel: nat, scope: set<string>, globals: set<string>)
    requires OkStmt(stmt, scope, globals) && st != [] && scope == Visible(st).Keys
    ensures GoodReturn(ExecStmt(stmt, st, fuel), Returns(stmt), GivesValues(stmt))
    decreases fuel, stmt, 1
  {
    hide EvalNum, EvalTest, NamesOf, Visible, AllNamed;
    match stmt
    case If(test, thn, alt) =>
      BlockReturns(thn, st, fuel, globals);
      if alt.Some? {
        BlockReturns(alt.value.body, st, fuel, globals);
        assert ExecStmt(alt.value, st, fuel) == ExecBlock(alt.value.body, st, fuel);
      }
    case Block(body) => BlockReturns(body, st, fuel, globals);
    case While(_, _, _, _) => WhileKeeps(stmt, st, fuel, globals);
    case _ =>
  }

  lemma {:induction false} BlockReturns(body: seq<Stmt>, st: Store, fuel: nat, globals: set<string>)
    requires st != [] && OkSeq(body, Visible(st).Keys, globals)
    ensures GoodReturn(ExecBlock(body, st, fuel), SomeReturns(body), AllGiveValues(body))
    decreases fuel, body, 2
  {
    hide OkSeq, Visible;
    PushVisible(st);
    SeqReturns(body, Push(st), fuel, globals);
  }

  /** A body of the fragment in which every path returns does not fall off its end, and what it returns
      is a value when every `return` has one. */
  lemma {:induction false} SeqReturns(body: seq<Stmt>, st: Store, fuel: nat, globals: set<string>)
    requires st != [] && OkSeq(body, Visible(st).Keys, globals)
    ensures GoodReturn(ExecSeq(body, st, fuel), SomeReturns(body), AllGiveValues(body))
    decreases fuel, body, 0
  {
    hide OkStmt, Returns, GivesValues, Visible, ExecStmt, Evolves;
    if body != [] {
      StmtReturns(body[0], st, fuel, Visible(st).Keys, globals);
      StmtKeeps(body[0], st, fuel, globals);
      var o := ExecStmt(body[0], st, fuel);
      if o.Normal? {
        EvolvesNonempty(st, o.st, globals);
        SeqReturns(body[1..], o.st, fuel, globals);
      }
    }
  }
}
