/** Budgets: ceilings on what a block may consume, nested at will among blocks that catch failures. The step
    charge written inline by the compiler is the one the interpreter makes, and no block ever completes more
    than its budget, whatever is caught inside it. */
module Budgets {
  datatype Kind = Steps | Memory

  datatype Budget = Budget(kind: Kind, limit: nat, used: nat)

  /** How code ends: well, with a failure that `attempt` catches, on its way out by `return`, `break` or
      `continue`, or stopped by the budget that stands at this place in the stack, which only that budget's own
      boundary catches. */
  datatype Outcome = Fine | Failure | Leaving | Exceeded(at: nat)

  datatype Charged = Charged(o: Outcome, budgets: seq<Budget>)

  /** Charges the budgets of a kind from the i-th on, outermost first, up to the first that is exceeded. */
  function Charge(budgets: seq<Budget>, kind: Kind, amount: nat, i: nat): (r: Charged)
    ensures |r.budgets| == |budgets| && (r.o.Fine? || r.o.Exceeded?)
    decreases |budgets| - i
  {
    if i >= |budgets| then Charged(Fine, budgets)
    else if budgets[i].kind != kind then Charge(budgets, kind, amount, i + 1)
    else
      var b := budgets[i].(used := budgets[i].used + amount);
      if b.used > b.limit then Charged(Exceeded(i), budgets[i := b])
      else Charge(budgets[i := b], kind, amount, i + 1)
  }

  // ---- the counter ---------------------------------------------------------------------------------------

  datatype Count = Count(o: Outcome, budgets: seq<Budget>, steps: nat)

  /** One unit of work. */
  function Tick(budgets: seq<Budget>, steps: nat, stepLimit: nat): Count {
    if steps + 1 > stepLimit then Count(Failure, budgets, steps + 1)
    else
      var c := Charge(budgets, Steps, 1, 0);
      Count(c.o, c.budgets, steps + 1)
  }

  class Meter {
    var budgets: seq<Budget>
    var steps: nat
    var stepLimit: nat
    var tickCheck: int

    /** The inline comparison lets a step through only when there is nothing to be done about it. */
    ghost predicate Tuned()
      reads this
    {
      tickCheck == if budgets == [] then stepLimit else -1
    }

    constructor (stepLimit: nat)
      ensures Tuned() && budgets == [] && steps == 0 && this.stepLimit == stepLimit
    {
      budgets, steps, this.stepLimit, tickCheck := [], 0, stepLimit, stepLimit;
    }

    method Retune()
      modifies this`tickCheck
      ensures Tuned()
    {
      tickCheck := if |budgets| == 0 then stepLimit else -1;
    }

    method ChargeAll(kind: Kind, amount: nat) returns (o: Outcome)
      modifies this`budgets
      ensures Charged(o, budgets) == Charge(old(budgets), kind, amount, 0)
    {
      for i := 0 to |budgets|
        invariant |budgets| == |old(budgets)|
        invariant Charge(old(budgets), kind, amount, 0) == Charge(budgets, kind, amount, i)
      {
        var b := budgets[i];
        if b.kind != kind { continue; }
        budgets := budgets[i := b.(used := b.used + amount)];
        if b.used + amount > b.limit { return Exceeded(i); }
      }
      o := Fine;
    }

    /** The interpreter's charge. */
    method TickCall() returns (o: Outcome)
      requires Tuned()
      modifies this
      ensures Tuned() && stepLimit == old(stepLimit)
      ensures Count(o, budgets, steps) == Tick(old(budgets), old(steps), old(stepLimit))
    {
      steps := steps + 1;
      if steps > stepLimit { return Failure; }
      if |budgets| == 0 { return Fine; }
      o := ChargeAll(Steps, 1);
    }

    /** The compiler's: a comparison, and the rest only when the comparison says so. */
    method TickInline() returns (o: Outcome)
      requires Tuned()
      modifies this
      ensures Tuned() && stepLimit == old(stepLimit)
      ensures Count(o, budgets, steps) == Tick(old(budgets), old(steps), old(stepLimit))
    {
      steps := steps + 1;
      if steps > tickCheck {
        o := TickDue();
      } else {
        o := Fine;
      }
    }

    method TickDue() returns (o: Outcome)
      modifies this`budgets
      ensures steps > stepLimit ==> o == Failure && budgets == old(budgets)
      ensures steps <= stepLimit ==> Charged(o, budgets) == Charge(old(budgets), Steps, 1, 0)
    {
      if steps > stepLimit { return Failure; }
      o := ChargeAll(Steps, 1);
    }

    /** A nested budget can only tighten. */
    method Open(kind: Kind, requested: nat)
      requires Tuned()
      modifies this
      ensures Tuned() && steps == old(steps) && stepLimit == old(stepLimit)
      ensures budgets == old(budgets) + [Budget(kind, Limit(old(budgets), kind, requested), 0)]
    {
      var limit: int := requested;
      for i := 0 to |budgets|
        invariant Limit(budgets, kind, requested) == Clamp(Tightest(budgets[i..], kind, limit))
      {
        assert budgets[i..][0] == budgets[i] && budgets[i..][1..] == budgets[i + 1..];
        var outer := budgets[i];
        if outer.kind == kind { limit := Min(limit, outer.limit - outer.used); }
      }
      budgets := budgets + [Budget(kind, Clamp(limit), 0)];
      Retune();
    }

    method Close()
      requires Tuned() && budgets != []
      modifies this
      ensures Tuned() && steps == old(steps) && stepLimit == old(stepLimit)
      ensures budgets == old(budgets)[..|old(budgets)| - 1]
    {
      budgets := budgets[..|budgets| - 1];
      Retune();
    }
  }

  // ---- opening a budget ------------------------------------------------------------------------------------

  function Min(a: int, b: int): int {
    if a <= b then a else b
  }

  function Clamp(a: int): nat {
    if a < 0 then 0 else a
  }

  function Tightest(outer: seq<Budget>, kind: Kind, limit: int): int {
    if outer == [] then limit
    else Tightest(outer[1..], kind, if outer[0].kind == kind then Min(limit, outer[0].limit - outer[0].used) else limit)
  }

  function Limit(outer: seq<Budget>, kind: Kind, requested: nat): nat {
    Clamp(Tightest(outer, kind, requested))
  }

  /** No more than was asked for, and no more than any enclosing block of the kind has left; but as much as that
      allows. */
  lemma LimitTightens(outer: seq<Budget>, kind: Kind, requested: nat)
    requires Within(outer)
    ensures Limit(outer, kind, requested) <= requested
    ensures forall i :: 0 <= i < |outer| && outer[i].kind == kind ==> Limit(outer, kind, requested) <= outer[i].limit - outer[i].used
    ensures Limit(outer, kind, requested) == requested
      || exists i :: 0 <= i < |outer| && outer[i].kind == kind && Limit(outer, kind, requested) == outer[i].limit - outer[i].used
  {
    TightestBounds(outer, kind, requested);
    TightestReached(outer, kind, requested);
  }

  lemma {:induction false} TightestReached(outer: seq<Budget>, kind: Kind, limit: int)
    ensures Tightest(outer, kind, limit) == limit
      || exists i :: 0 <= i < |outer| && outer[i].kind == kind && Tightest(outer, kind, limit) == outer[i].limit - outer[i].used
    decreases |outer|
  {
    if outer != [] {
      var next := if outer[0].kind == kind then Min(limit, outer[0].limit - outer[0].used) else limit;
      TightestReached(outer[1..], kind, next);
      if Tightest(outer[1..], kind, next) != next {
        var i :| 0 <= i < |outer[1..]| && outer[1..][i].kind == kind
          && Tightest(outer[1..], kind, next) == outer[1..][i].limit - outer[1..][i].used;
        assert outer[i + 1] == outer[1..][i];
      } else if next != limit {
        assert outer[0].kind == kind && next == outer[0].limit - outer[0].used;
      }
    }
  }

  lemma {:induction false} TightestBounds(outer: seq<Budget>, kind: Kind, limit: int)
    ensures Tightest(outer, kind, limit) <= limit
    ensures forall i :: 0 <= i < |outer| && outer[i].kind == kind ==> Tightest(outer, kind, limit) <= outer[i].limit - outer[i].used
    decreases |outer|
  {
    if outer != [] {
      var next := if outer[0].kind == kind then Min(limit, outer[0].limit - outer[0].used) else limit;
      TightestBounds(outer[1..], kind, next);
      forall i | 0 <= i < |outer| && outer[i].kind == kind
        ensures Tightest(outer, kind, limit) <= outer[i].limit - outer[i].used
      {
        if i > 0 { assert outer[i] == outer[1..][i - 1]; }
      }
    }
  }

  // ---- programs of budgets ------------------------------------------------------------------------------------

  datatype Prog =
    | Work
    | Allocate(bytes: nat)
    | Fail
    | Leave               // `return`, `break`, `continue`
    | Bounded(body: Prog) // a call, or a pass of a loop, where leaving ends
    | Sequence(parts: seq<Prog>)
    | Budgeted(kind: Kind, requested: real, body: Prog)
    | Attempt(body: Prog, handler: Prog)

  /** `done` counts the steps that completed, `bytes` the memory. */
  datatype State = State(budgets: seq<Budget>, steps: nat, done: nat, bytes: nat)

  datatype Res = Res(o: Outcome, st: State)

  function Completed(st: State, kind: Kind): nat {
    if kind.Steps? then st.done else st.bytes
  }

  function Opened(kind: Kind, requested: nat, st: State): State {
    st.(budgets := st.budgets + [Budget(kind, Limit(st.budgets, kind, requested), 0)])
  }

  function Exec(p: Prog, st: State, stepLimit: nat): (r: Res)
    decreases p
  {
    match p
    case Work =>
      var t := Tick(st.budgets, st.steps, stepLimit);
      Res(t.o, State(t.budgets, t.steps, if t.o.Fine? then st.done + 1 else st.done, st.bytes))
    case Allocate(bytes) =>
      var c := Charge(st.budgets, Memory, bytes, 0);
      Res(c.o, st.(budgets := c.budgets, bytes := if c.o.Fine? then st.bytes + bytes else st.bytes))
    case Fail => Res(Failure, st)
    case Leave => Res(Leaving, st)
    case Bounded(body) =>
      var r := Exec(body, st, stepLimit);
      if r.o.Leaving? then Res(Fine, r.st) else r
    case Sequence(parts) => ExecAll(parts, st, stepLimit)
    case Budgeted(kind, requested, body) =>
      if requested <= 0.0 then Res(Failure, st) else
        var n := |st.budgets|;
        var r := Exec(body, Opened(kind, requested.Floor, st), stepLimit);
        var back := r.st.(budgets := if n <= |r.st.budgets| then r.st.budgets[..n] else []);
        Res(if r.o == Exceeded(n) then Failure else r.o, back)
    case Attempt(body, handler) =>
      var r := Exec(body, st, stepLimit);
      if r.o.Failure? then Exec(handler, r.st, stepLimit) else r
  }

  function ExecAll(parts: seq<Prog>, st: State, stepLimit: nat): Res
    decreases parts
  {
    if parts == [] then Res(Fine, st) else
      var r := Exec(parts[0], st, stepLimit);
      if r.o.Fine? then ExecAll(parts[1..], r.st, stepLimit) else r
  }

  // ---- safety ---------------------------------------------------------------------------------------------------

  ghost predicate Within(budgets: seq<Budget>) {
    forall i :: 0 <= i < |budgets| ==> budgets[i].used <= budgets[i].limit
  }

  /** From one state to another: the same budgets, none past its limit unless it is the one that stopped the
      code, and of its kind no more was completed than it was charged, or than its limit allows. */
  ghost predicate Safe(before: State, r: Res) {
    && |r.st.budgets| == |before.budgets|
    && before.done <= r.st.done && before.bytes <= r.st.bytes
    && (r.o.Exceeded? ==> r.o.at < |before.budgets|)
    && forall i :: 0 <= i < |before.budgets| ==> SafeOne(before, r, i)
  }

  ghost predicate SafeOne(before: State, r: Res, i: nat)
    requires i < |before.budgets| == |r.st.budgets|
  {
    var b, b' := before.budgets[i], r.st.budgets[i];
    && b'.kind == b.kind && b'.limit == b.limit && b.used <= b'.used
    && (r.o != Exceeded(i) ==> b'.used <= b'.limit)
    && Completed(r.st, b.kind) - Completed(before, b.kind) <= Min(b'.used, b'.limit) - b.used
  }

  lemma {:induction false} ChargeSafe(budgets: seq<Budget>, kind: Kind, amount: nat, i: nat)
    requires i <= |budgets| && Within(budgets)
    ensures var c := Charge(budgets, kind, amount, i);
      && c.o != Failure && (c.o.Exceeded? ==> i <= c.o.at < |budgets|)
      && forall k :: 0 <= k < |budgets| ==>
           && c.budgets[k].kind == budgets[k].kind && c.budgets[k].limit == budgets[k].limit
           && budgets[k].used <= c.budgets[k].used
           && (c.o != Exceeded(k) ==> c.budgets[k].used <= c.budgets[k].limit)
           && (c.o == Exceeded(k) ==> c.budgets[k].used > c.budgets[k].limit)
           && (c.o.Fine? && k >= i && budgets[k].kind == kind ==> c.budgets[k].used == budgets[k].used + amount)
    decreases |budgets| - i
  {
    if i < |budgets| {
      if budgets[i].kind != kind {
        ChargeSafe(budgets, kind, amount, i + 1);
      } else {
        var b := budgets[i].(used := budgets[i].used + amount);
        if b.used <= b.limit { ChargeSafe(budgets[i := b], kind, amount, i + 1); ChargeBelow(budgets[i := b], kind, amount, i + 1, i); }
      }
    }
  }

  lemma {:induction false} ChargeBelow(budgets: seq<Budget>, kind: Kind, amount: nat, i: nat, k: nat)
    requires k < i <= |budgets|
    ensures Charge(budgets, kind, amount, i).budgets[k] == budgets[k]
    decreases |budgets| - i
  {
    if i < |budgets| {
      if budgets[i].kind != kind {
        ChargeBelow(budgets, kind, amount, i + 1, k);
      } else {
        var b := budgets[i].(used := budgets[i].used + amount);
        if b.used <= b.limit { ChargeBelow(budgets[i := b], kind, amount, i + 1, k); }
      }
    }
  }

  lemma SafeJoin(a: State, r: Res, s: Res)
    requires Within(a.budgets) && Safe(a, r) && !r.o.Exceeded? && Safe(r.st, s)
    ensures Safe(a, s)
  {
    forall i | 0 <= i < |a.budgets| ensures SafeOne(a, s, i) {
      assert SafeOne(a, r, i) && SafeOne(r.st, s, i);
    }
  }

  lemma StillWithin(a: State, r: Res)
    requires Safe(a, r) && !r.o.Exceeded?
    ensures Within(r.st.budgets)
  {
    forall i | 0 <= i < |r.st.budgets| ensures r.st.budgets[i].used <= r.st.budgets[i].limit { assert SafeOne(a, r, i); }
  }

  /** Whatever runs, and whatever it catches, is safe for every budget it runs under. */
  lemma {:induction false} ExecSafe(p: Prog, st: State, stepLimit: nat)
    requires Within(st.budgets)
    ensures Safe(st, Exec(p, st, stepLimit))
    decreases p, 0
  {
    match p
    case Work => ChargeSafe(st.budgets, Steps, 1, 0);
    case Allocate(bytes) => ChargeSafe(st.budgets, Memory, bytes, 0);
    case Fail =>
    case Leave =>
    case Bounded(body) =>
      ExecSafe(body, st, stepLimit);
      var r := Exec(body, st, stepLimit);
      assert forall i :: 0 <= i < |st.budgets| && SafeOne(st, r, i) ==> SafeOne(st, Exec(p, st, stepLimit), i);
    case Sequence(parts) => ExecAllSafe(parts, st, stepLimit);
    case Budgeted(kind, requested, body) =>
      if requested > 0.0 { BudgetedSafe(kind, requested, body, st, stepLimit); }
    case Attempt(body, handler) =>
      ExecSafe(body, st, stepLimit);
      var r := Exec(body, st, stepLimit);
      if r.o.Failure? {
        StillWithin(st, r);
        ExecSafe(handler, r.st, stepLimit);
        SafeJoin(st, r, Exec(handler, r.st, stepLimit));
      }
  }

  lemma {:induction false} ExecAllSafe(parts: seq<Prog>, st: State, stepLimit: nat)
    requires Within(st.budgets)
    ensures Safe(st, ExecAll(parts, st, stepLimit))
    decreases parts, 0
  {
    if parts != [] {
      ExecSafe(parts[0], st, stepLimit);
      var r := Exec(parts[0], st, stepLimit);
      if r.o.Fine? {
        StillWithin(st, r);
        ExecAllSafe(parts[1..], r.st, stepLimit);
        SafeJoin(st, r, ExecAll(parts[1..], r.st, stepLimit));
      }
    }
  }

  lemma BudgetedSafe(kind: Kind, requested: real, body: Prog, st: State, stepLimit: nat)
    requires Within(st.budgets) && requested > 0.0
    ensures Safe(st, Exec(Budgeted(kind, requested, body), st, stepLimit))
    ensures Safe(Opened(kind, requested.Floor, st), Exec(body, Opened(kind, requested.Floor, st), stepLimit))
    decreases body, 1
  {
    var inner := Opened(kind, requested.Floor, st);
    var n := |st.budgets|;
    ExecSafe(body, inner, stepLimit);
    var r := Exec(body, inner, stepLimit);
    var out := Exec(Budgeted(kind, requested, body), st, stepLimit);
    forall i | 0 <= i < n ensures SafeOne(st, out, i) {
      assert SafeOne(inner, r, i);
      assert inner.budgets[i] == st.budgets[i] && out.st.budgets[i] == r.st.budgets[i];
    }
  }

  /** A block never completes more of what its budget counts than its limit, which is never more than was
      asked for nor than an enclosing block of the kind has left; being stopped is an ordinary failure
      outside it. */
  lemma BlockStaysWithin(kind: Kind, requested: real, body: Prog, st: State, stepLimit: nat)
    requires Within(st.budgets) && requested > 0.0
    ensures var r := Exec(Budgeted(kind, requested, body), st, stepLimit);
      && Completed(r.st, kind) - Completed(st, kind) <= Limit(st.budgets, kind, requested.Floor) <= requested.Floor
      && (forall i :: 0 <= i < |st.budgets| && st.budgets[i].kind == kind ==>
            Completed(r.st, kind) - Completed(st, kind) <= st.budgets[i].limit - st.budgets[i].used)
      && r.o != Exceeded(|st.budgets|)
  {
    LimitTightens(st.budgets, kind, requested.Floor);
    BudgetedSafe(kind, requested, body, st, stepLimit);
    var inner := Opened(kind, requested.Floor, st);
    assert SafeOne(inner, Exec(body, inner, stepLimit), |st.budgets|);
  }

  lemma BudgetedIs(kind: Kind, requested: real, body: Prog, st: State, stepLimit: nat)
    requires requested > 0.0
    ensures var n, r := |st.budgets|, Exec(body, Opened(kind, requested.Floor, st), stepLimit);
      Exec(Budgeted(kind, requested, body), st, stepLimit)
      == Res(if r.o == Exceeded(n) then Failure else r.o, r.st.(budgets := if n <= |r.st.budgets| then r.st.budgets[..n] else []))
  {
    hide Limit;
  }

  lemma AttemptIs(p: Prog, handler: Prog, st: State, stepLimit: nat)
    ensures var r := Exec(p, st, stepLimit);
      Exec(Attempt(p, handler), st, stepLimit) == if r.o.Failure? then Exec(handler, r.st, stepLimit) else r
  {
    hide Charge, Limit, Tick;
  }

  /** Leaving goes straight through `attempt`, and through a budget, which is closed behind it. */
  lemma LeavingPasses(p: Prog, handler: Prog, kind: Kind, requested: real, st: State, stepLimit: nat)
    requires Within(st.budgets)
    ensures Exec(p, st, stepLimit).o.Leaving? ==> Exec(Attempt(p, handler), st, stepLimit) == Exec(p, st, stepLimit)
    ensures requested > 0.0 ==>
      var r := Exec(p, Opened(kind, requested.Floor, st), stepLimit);
      r.o.Leaving? ==>
        var out := Exec(Budgeted(kind, requested, p), st, stepLimit);
        && out.o.Leaving? && |out.st.budgets| == |st.budgets| && out.st.done == r.st.done && out.st.bytes == r.st.bytes
        && forall i :: 0 <= i < |st.budgets| ==> out.st.budgets[i] == r.st.budgets[i]
  {
    hide Exec, Limit;
    AttemptIs(p, handler, st, stepLimit);
    if requested > 0.0 {
      BudgetedSafe(kind, requested, p, st, stepLimit);
      BudgetedIs(kind, requested, p, st, stepLimit);
    }
  }

  // ---- a budget that is enough ------------------------------------------------------------------------------------

  predicate NoBudgets(p: Prog) {
    match p
    case Bounded(body) => NoBudgets(body)
    case Sequence(parts) => forall i :: 0 <= i < |parts| ==> NoBudgets(parts[i])
    case Budgeted(_, _, _) => false
    case Attempt(body, handler) => NoBudgets(body) && NoBudgets(handler)
    case _ => true
  }

  /** The same state under one budget more, of which so much is used. */
  function Beside(st: State, b: Budget): State {
    st.(budgets := st.budgets + [b])
  }

  lemma {:induction false} ChargeBeside(budgets: seq<Budget>, b: Budget, kind: Kind, amount: nat, i: nat)
    requires i <= |budgets|
    ensures var c, d := Charge(budgets, kind, amount, i), Charge(budgets + [b], kind, amount, i);
      if c.o.Exceeded? then d == Charged(c.o, c.budgets + [b])
      else if b.kind != kind then d == Charged(c.o, c.budgets + [b])
      else if b.used + amount <= b.limit then d == Charged(c.o, c.budgets + [b.(used := b.used + amount)])
      else d.o == Exceeded(|budgets|)
    decreases |budgets| - i
  {
    var more := budgets + [b];
    if i == |budgets| {
      assert more[i] == b;
      assert more[i := b.(used := b.used + amount)] == budgets + [b.(used := b.used + amount)];
    } else if budgets[i].kind != kind {
      assert more[i] == budgets[i];
      ChargeBeside(budgets, b, kind, amount, i + 1);
    } else {
      assert more[i] == budgets[i];
      var c := budgets[i].(used := budgets[i].used + amount);
      assert more[i := c] == budgets[i := c] + [b];
      if c.used <= c.limit { ChargeBeside(budgets[i := c], b, kind, amount, i + 1); }
    }
  }

  lemma {:induction false} Grows(p: Prog, st: State, stepLimit: nat)
    requires NoBudgets(p)
    ensures var r := Exec(p, st, stepLimit); st.done <= r.st.done && st.bytes <= r.st.bytes && |r.st.budgets| == |st.budgets|
    decreases p, 0
  {
    match p
    case Bounded(body) => Grows(body, st, stepLimit);
    case Sequence(parts) => AllGrows(parts, st, stepLimit);
    case Attempt(body, handler) =>
      Grows(body, st, stepLimit);
      Grows(handler, Exec(body, st, stepLimit).st, stepLimit);
    case _ =>
  }

  lemma {:induction false} AllGrows(parts: seq<Prog>, st: State, stepLimit: nat)
    requires forall i :: 0 <= i < |parts| ==> NoBudgets(parts[i])
    ensures var r := ExecAll(parts, st, stepLimit);
      st.done <= r.st.done && st.bytes <= r.st.bytes && |r.st.budgets| == |st.budgets|
    decreases parts, 0
  {
    if parts != [] {
      Grows(parts[0], st, stepLimit);
      AllGrows(parts[1..], Exec(parts[0], st, stepLimit).st, stepLimit);
    }
  }

  /** The run under one budget more follows the run without it, as long as that does not complete more than the
      budget has left. */
  ghost predicate Follows(free: Res, under: Res, from: State, b: Budget) {
    && under.o == free.o && Completed(from, b.kind) <= Completed(free.st, b.kind)
    && under.st == Beside(free.st, b.(used := b.used + (Completed(free.st, b.kind) - Completed(from, b.kind))))
  }

  lemma {:induction false} SideBySide(p: Prog, st: State, b: Budget, stepLimit: nat)
    requires NoBudgets(p) && !Exec(p, st, stepLimit).o.Exceeded?
    requires b.used + Completed(Exec(p, st, stepLimit).st, b.kind) - Completed(st, b.kind) <= b.limit
    ensures Follows(Exec(p, st, stepLimit), Exec(p, Beside(st, b), stepLimit), st, b)
    decreases p, 0
  {
    Grows(p, st, stepLimit);
    hide Exec, Follows;
    match p
    case Work => WorkBeside(st, b, stepLimit);
    case Allocate(bytes) => AllocateBeside(bytes, st, b, stepLimit);
    case Fail => EndsBeside(p, st, b, stepLimit);
    case Leave => EndsBeside(p, st, b, stepLimit);
    case Bounded(body) =>
      BoundedIs(body, st, stepLimit);
      BoundedIs(body, Beside(st, b), stepLimit);
      SideBySide(body, st, b, stepLimit);
      FollowsBounded(Exec(body, st, stepLimit), Exec(body, Beside(st, b), stepLimit), st, b);
    case Sequence(parts) =>
      SequenceIs(parts, st, stepLimit);
      SequenceIs(parts, Beside(st, b), stepLimit);
      AllSideBySide(parts, st, b, stepLimit);
    case Attempt(body, handler) =>
      var r, u := Exec(body, st, stepLimit), Exec(body, Beside(st, b), stepLimit);
      AttemptIs(body, handler, st, stepLimit);
      AttemptIs(body, handler, Beside(st, b), stepLimit);
      if r.o.Failure? {
        Grows(handler, r.st, stepLimit);
        Grows(body, st, stepLimit);
        var c := b.(used := b.used + (Completed(r.st, b.kind) - Completed(st, b.kind)));
        SideBySide(body, st, b, stepLimit);
        FollowsAt(r, u, st, b);
        SideBySide(handler, r.st, c, stepLimit);
        FollowsOn(r, st, b, c, Exec(handler, r.st, stepLimit), Exec(handler, Beside(r.st, c), stepLimit));
      } else {
        SideBySide(body, st, b, stepLimit);
        FollowsAt(r, u, st, b);
      }
  }

  lemma BoundedIs(body: Prog, st: State, stepLimit: nat)
    ensures var r := Exec(body, st, stepLimit);
      Exec(Bounded(body), st, stepLimit) == if r.o.Leaving? then Res(Fine, r.st) else r
  {
  }

  lemma SequenceIs(parts: seq<Prog>, st: State, stepLimit: nat)
    ensures Exec(Sequence(parts), st, stepLimit) == ExecAll(parts, st, stepLimit)
  {
  }

  lemma FollowsBounded(r: Res, u: Res, from: State, b: Budget)
    requires Follows(r, u, from, b)
    ensures Follows(if r.o.Leaving? then Res(Fine, r.st) else r, if u.o.Leaving? then Res(Fine, u.st) else u, from, b)
  {
  }

  lemma FollowsAt(r: Res, u: Res, from: State, b: Budget)
    requires Follows(r, u, from, b)
    ensures u.o == r.o && u.st == Beside(r.st, b.(used := b.used + (Completed(r.st, b.kind) - Completed(from, b.kind))))
  {
  }

  lemma EndsBeside(p: Prog, st: State, b: Budget, stepLimit: nat)
    requires p.Fail? || p.Leave?
    ensures Follows(Exec(p, st, stepLimit), Exec(p, Beside(st, b), stepLimit), st, b)
  {
    assert b.(used := b.used + 0) == b;
  }

  lemma FollowsOn(r: Res, from: State, b: Budget, c: Budget, free: Res, under: Res)
    requires Completed(from, b.kind) <= Completed(r.st, b.kind)
    requires c == b.(used := b.used + (Completed(r.st, b.kind) - Completed(from, b.kind))) && Follows(free, under, r.st, c)
    ensures Follows(free, under, from, b)
  {
  }

  lemma WorkBeside(st: State, b: Budget, stepLimit: nat)
    requires !Exec(Work, st, stepLimit).o.Exceeded?
    requires b.used + Completed(Exec(Work, st, stepLimit).st, b.kind) - Completed(st, b.kind) <= b.limit
    ensures Follows(Exec(Work, st, stepLimit), Exec(Work, Beside(st, b), stepLimit), st, b)
  {
    assert b.(used := b.used + 0) == b;
    if st.steps + 1 <= stepLimit {
      var c := Charge(st.budgets, Steps, 1, 0);
      WorkIs(st, stepLimit);
      WorkIs(Beside(st, b), stepLimit);
      hide Charge, Exec, Tick;
      ChargeBeside(st.budgets, b, Steps, 1, 0);
    }
  }

  lemma WorkIs(st: State, stepLimit: nat)
    requires st.steps + 1 <= stepLimit
    ensures var c := Charge(st.budgets, Steps, 1, 0);
      Exec(Work, st, stepLimit) == Res(c.o, State(c.budgets, st.steps + 1, if c.o.Fine? then st.done + 1 else st.done, st.bytes))
  {
    hide Charge;
  }

  lemma AllocateBeside(bytes: nat, st: State, b: Budget, stepLimit: nat)
    requires !Exec(Allocate(bytes), st, stepLimit).o.Exceeded?
    requires b.used + Completed(Exec(Allocate(bytes), st, stepLimit).st, b.kind) - Completed(st, b.kind) <= b.limit
    ensures Follows(Exec(Allocate(bytes), st, stepLimit), Exec(Allocate(bytes), Beside(st, b), stepLimit), st, b)
  {
    hide Charge;
    ChargeBeside(st.budgets, b, Memory, bytes, 0);
    assert b.(used := b.used + 0) == b;
  }

  lemma {:induction false} AllSideBySide(parts: seq<Prog>, st: State, b: Budget, stepLimit: nat)
    requires (forall i :: 0 <= i < |parts| ==> NoBudgets(parts[i])) && !ExecAll(parts, st, stepLimit).o.Exceeded?
    requires b.used + Completed(ExecAll(parts, st, stepLimit).st, b.kind) - Completed(st, b.kind) <= b.limit
    ensures Follows(ExecAll(parts, st, stepLimit), ExecAll(parts, Beside(st, b), stepLimit), st, b)
    decreases parts, 0
  {
    AllGrows(parts, st, stepLimit);
    if parts != [] {
      var r := Exec(parts[0], st, stepLimit);
      Grows(parts[0], st, stepLimit);
      AllGrows(parts[1..], r.st, stepLimit);
      SideBySide(parts[0], st, b, stepLimit);
      if r.o.Fine? {
        AllSideBySide(parts[1..], r.st, b.(used := b.used + (Completed(r.st, b.kind) - Completed(st, b.kind))), stepLimit);
      }
    }
  }

  /** A budget that allows what the block completes without it changes nothing at all. */
  lemma EnoughIsUnseen(p: Prog, kind: Kind, requested: real, st: State, stepLimit: nat)
    requires NoBudgets(p) && requested > 0.0 && !Exec(p, st, stepLimit).o.Exceeded?
    requires Completed(Exec(p, st, stepLimit).st, kind) - Completed(st, kind) <= Limit(st.budgets, kind, requested.Floor)
    ensures Exec(Budgeted(kind, requested, p), st, stepLimit) == Exec(p, st, stepLimit)
  {
    BudgetedIs(kind, requested, p, st, stepLimit);
    hide Limit, Exec;
    var b := Budget(kind, Limit(st.budgets, kind, requested.Floor), 0);
    var free := Exec(p, st, stepLimit);
    SideBySide(p, st, b, stepLimit);
    Grows(p, st, stepLimit);
    var under := Exec(p, Beside(st, b), stepLimit);
    assert under.st.budgets[..|st.budgets|] == free.st.budgets;
  }

  // ---- the limit on steps ---------------------------------------------------------------------------------------

  /** The steps that a limit has left. */
  ghost function Room(steps: nat, stepLimit: nat): nat {
    if steps < stepLimit then stepLimit - steps else 0
  }

  /** Of the steps counted, those complete that the limit had room for, and all of them do. */
  ghost predicate CountedOff(before: State, after: State, stepLimit: nat) {
    && after.budgets == before.budgets && before.steps <= after.steps
    && after.done - before.done == Min(after.steps - before.steps, Room(before.steps, stepLimit))
  }

  /** Outside every budget exactly as many steps complete as the limit leaves room for, whatever is caught. */
  lemma {:induction false} StepLimitExact(p: Prog, st: State, stepLimit: nat)
    requires NoBudgets(p) && st.budgets == []
    ensures CountedOff(st, Exec(p, st, stepLimit).st, stepLimit)
    decreases p
  {
    match p
    case Bounded(body) => StepLimitExact(body, st, stepLimit);
    case Sequence(parts) => StepLimitExactAll(parts, st, stepLimit);
    case Attempt(body, handler) =>
      StepLimitExact(body, st, stepLimit);
      var r := Exec(body, st, stepLimit);
      if r.o.Failure? { StepLimitExact(handler, r.st, stepLimit); }
    case _ =>
  }

  lemma {:induction false} StepLimitExactAll(parts: seq<Prog>, st: State, stepLimit: nat)
    requires (forall q :: q in parts ==> NoBudgets(q)) && st.budgets == []
    ensures CountedOff(st, ExecAll(parts, st, stepLimit).st, stepLimit)
    decreases parts
  {
    if parts != [] {
      assert parts[0] in parts;
      StepLimitExact(parts[0], st, stepLimit);
      var r := Exec(parts[0], st, stepLimit);
      if r.o.Fine? { StepLimitExactAll(parts[1..], r.st, stepLimit); }
    }
  }
}
