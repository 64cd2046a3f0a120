/** Authority over whole runs: what any frame can come to hold, and how often a grant can be used. */
module Authority {
  import opened Grants

  type Cap = string

  /** A grant as it stands; `initial` is the number of uses it was made with. */
  datatype Lent = Lent(capability: Cap, parent: Option<nat>, initial: Option<Number>, usesLeft: Option<Number>,
                       until: Option<Number>, revoked: bool, spent: nat)

  /** `saved` are the capabilities that unwinding gives back, innermost last; `entries` the grants that `using`
      blocks have been entered with; `exercised` the capabilities that were checked and allowed. */
  datatype State = State(caps: set<Cap>, saved: seq<set<Cap>>, lent: seq<Lent>, now: int, entries: seq<nat>, exercised: set<Cap>)

  datatype Step =
    | Call(needs: set<Cap>)          // a function that declares what it needs
    | Native(needs: set<Cap>)        // a builtin, which checks and returns
    | EnterModule                    // a module's top level
    | Using(grant: nat)              // a block under a grant
    | Leave                          // the end of a call, module or block, by whatever way
    | Mint(capability: Cap)
    | Attenuate(grant: nat, uses: Option<Number>, until: Option<Number>)
    | Revoke(grant: nat)
    | Wait(ticks: nat)

  ghost predicate WellLinked(lent: seq<Lent>) {
    forall g :: 0 <= g < |lent| && lent[g].parent.Some? ==> lent[g].parent.value < g
  }

  /** g is the grant `at` or stands above it. */
  predicate Under(lent: seq<Lent>, at: nat, g: nat)
    decreases at
  {
    || at == g
    || (at < |lent| && lent[at].parent.Some? && lent[at].parent.value < at && Under(lent, lent[at].parent.value, g))
  }

  predicate Live(lent: seq<Lent>, at: nat, now: int)
    decreases at
  {
    && at < |lent| && OwnReason(lent[at].revoked, lent[at].usesLeft, lent[at].until, now).Usable?
    && (lent[at].parent.Some? && lent[at].parent.value < at ==> Live(lent, lent[at].parent.value, now))
  }

  /** Every link up from `at` is spent once. */
  function Spent(lent: seq<Lent>, at: nat): seq<Lent> {
    seq(|lent|, g requires 0 <= g < |lent| =>
      if Under(lent, at, g) then lent[g].(usesLeft := OneLess(lent[g].usesLeft), spent := lent[g].spent + 1) else lent[g])
  }

  ghost predicate Enabled(s: State, step: Step) {
    match step
    case Call(needs) => needs <= s.caps
    case Native(needs) => needs <= s.caps
    case Using(g) => Live(s.lent, g, s.now)
    case Leave => s.saved != []
    case Mint(capability) => capability in s.caps
    case Attenuate(g, _, _) => g < |s.lent|
    case Revoke(g) => g < |s.lent|
    case _ => true
  }

  function Do(s: State, step: Step): State {
    match step
    case Call(needs) => s.(caps := needs, saved := s.saved + [s.caps], exercised := s.exercised + needs)
    case Native(needs) => s.(exercised := s.exercised + needs)
    case EnterModule => s.(caps := {}, saved := s.saved + [s.caps])
    case Using(g) =>
      if g >= |s.lent| then s else
        s.(caps := s.caps + {s.lent[g].capability}, saved := s.saved + [s.caps],
           lent := Spent(s.lent, g), entries := s.entries + [g])
    case Leave =>
      if s.saved == [] then s else s.(caps := s.saved[|s.saved| - 1], saved := s.saved[..|s.saved| - 1])
    case Mint(capability) => s.(lent := s.lent + [Lent(capability, None, None, None, None, false, 0)])
    case Attenuate(g, uses, until) =>
      if g >= |s.lent| then s else
        var n := NarrowUses(uses, s.lent[g].usesLeft);
        s.(lent := s.lent + [Lent(s.lent[g].capability, Some(g), n, n, NarrowUntil(until, s.lent[g].until), false, 0)])
    case Revoke(g) => if g >= |s.lent| then s else s.(lent := s.lent[g := s.lent[g].(revoked := true)])
    case Wait(ticks) => s.(now := s.now + ticks)
  }

  function Start(granted: set<Cap>): State {
    State(granted, [], [], 0, [], {})
  }

  ghost predicate Runs(s: State, steps: seq<Step>)
    decreases |steps|
  {
    steps == [] || (Enabled(s, steps[0]) && Runs(Do(s, steps[0]), steps[1..]))
  }

  function Run(s: State, steps: seq<Step>): State
    decreases |steps|
  {
    if steps == [] then s else Run(Do(s, steps[0]), steps[1..])
  }

  // ---- nothing is ever held that the run was not started with ----------------------------------------------

  ghost predicate Bounded(s: State, granted: set<Cap>) {
    && s.caps <= granted && s.exercised <= granted
    && (forall i :: 0 <= i < |s.saved| ==> s.saved[i] <= granted)
    && (forall g :: 0 <= g < |s.lent| ==> s.lent[g].capability in granted)
  }

  lemma StepBounded(s: State, step: Step, granted: set<Cap>)
    requires Bounded(s, granted) && Enabled(s, step)
    ensures Bounded(Do(s, step), granted)
  {
  }

  /** In every reachable state, through calls, blocks, modules and unwinding: the frame, the frames below it and
      every grant hold no more than the run was given, and nothing more was ever exercised. */
  lemma {:induction false} AuthorityNeverGrows(s: State, steps: seq<Step>, granted: set<Cap>)
    requires Bounded(s, granted) && Runs(s, steps)
    ensures Bounded(Run(s, steps), granted)
    decreases |steps|
  {
    if steps != [] {
      StepBounded(s, steps[0], granted);
      AuthorityNeverGrows(Do(s, steps[0]), steps[1..], granted);
    }
  }

  /** What a step needs the frame to hold. */
  ghost function Needs(s: State, step: Step): set<Cap> {
    match step
    case Call(needs) => needs
    case Native(needs) => needs
    case Mint(capability) => {capability}
    case Using(g) => if g < |s.lent| then {s.lent[g].capability} else {}
    case _ => {}
  }

  /** Whatever a run needs at any of its steps it was given; and what was checked is on record at the end. */
  lemma {:induction false} NeedsWereGiven(s: State, steps: seq<Step>, granted: set<Cap>, k: nat)
    requires Bounded(s, granted) && Runs(s, steps) && k < |steps|
    ensures Needs(Run(s, steps[..k]), steps[k]) <= granted
    ensures steps[k].Call? || steps[k].Native? ==> steps[k].needs <= Run(s, steps).exercised
    decreases |steps|
  {
    var t := Do(s, steps[0]);
    StepBounded(s, steps[0], granted);
    if k == 0 {
      assert steps[..0] == [];
      RecordGrows(t, steps[1..]);
    } else {
      NeedsWereGiven(t, steps[1..], granted, k - 1);
      assert steps[1..][..k - 1] == steps[..k][1..] && steps[..k][0] == steps[0];
    }
  }

  lemma {:induction false} RecordGrows(s: State, steps: seq<Step>)
    ensures s.exercised <= Run(s, steps).exercised
    decreases |steps|
  {
    if steps != [] { RecordGrows(Do(s, steps[0]), steps[1..]); }
  }

  // ---- unwinding ---------------------------------------------------------------------------------------------

  predicate Opens(step: Step) {
    step.Call? || step.EnterModule? || step.Using?
  }

  /** Every call, module and block opened in the run is left in it, and `depth` more. */
  predicate Nested(steps: seq<Step>, depth: nat)
    decreases |steps|
  {
    if steps == [] then depth == 0
    else if Opens(steps[0]) then Nested(steps[1..], depth + 1)
    else if steps[0].Leave? then depth > 0 && Nested(steps[1..], depth - 1)
    else Nested(steps[1..], depth)
  }

  /** Leaving gives back what was held on entering, whatever was done in between. */
  lemma {:induction false} Unwinds(s: State, steps: seq<Step>, depth: nat)
    requires Runs(s, steps) && Nested(steps, depth) && depth <= |s.saved|
    ensures var n := |s.saved| - depth; var end := Run(s, steps);
      && end.saved == s.saved[..n]
      && end.caps == if depth == 0 then s.caps else s.saved[n]
    decreases |steps|
  {
    if steps != [] {
      var step := steps[0];
      var t := Do(s, step);
      if Opens(step) {
        if step.Using? { LiveSelf(s.lent, step.grant, s.now); }
        assert t.saved == s.saved + [s.caps];
        Unwinds(t, steps[1..], depth + 1);
        assert t.saved[..|s.saved| - depth] == s.saved[..|s.saved| - depth];
      } else if step.Leave? {
        Unwinds(t, steps[1..], depth - 1);
      } else {
        Unwinds(t, steps[1..], depth);
      }
    }
  }

  lemma {:induction false} RunSplit(s: State, a: seq<Step>, b: seq<Step>)
    ensures Run(s, a + b) == Run(Run(s, a), b)
    ensures Runs(s, a + b) <==> Runs(s, a) && Runs(Run(s, a), b)
    decreases |a|
  {
    hide Do, Enabled;
    if a == [] {
      assert a + b == b;
    } else {
      RunSplit(Do(s, a[0]), a[1..], b);
      assert (a + b)[0] == a[0] && (a + b)[1..] == a[1..] + b;
    }
  }

  /** What a block holds: a call what it declared, a module's top level nothing, a `using` block the capability of
      its grant beside what was held. */
  function HeldIn(s: State, step: Step): set<Cap>
    requires Opens(step) && (step.Using? ==> step.grant < |s.lent|)
  {
    match step
    case Call(needs) => needs
    case Using(g) => s.caps + {s.lent[g].capability}
    case _ => {}
  }

  /** A block holds just that at its start, and again whenever all that it opened has been left, whatever was done
      in between; and leaving it gives back exactly what was held. */
  lemma BlockHolds(s: State, step: Step, body: seq<Step>)
    requires Opens(step) && Runs(s, [step] + body + [Leave]) && Nested(body, 0)
    ensures step.Using? ==> step.grant < |s.lent| && Live(s.lent, step.grant, s.now)
    ensures Run(s, [step]).caps == HeldIn(s, step) == Run(s, [step] + body).caps
    ensures var end := Run(s, [step] + body + [Leave]); end.caps == s.caps && end.saved == s.saved
  {
    hide Do, Enabled;
    var open, leave := [step], [Leave];
    RunSplit(s, open + body, leave);
    RunSplit(s, open, body);
    OpenedBlock(s, step);
    var inside := Run(s, open);
    Unwinds(inside, body, 0);
    LeaveCloses(Run(inside, body), s.saved, s.caps);
  }

  lemma OpenedBlock(s: State, step: Step)
    requires Opens(step) && Runs(s, [step])
    ensures step.Using? ==> step.grant < |s.lent| && Live(s.lent, step.grant, s.now)
    ensures var t := Run(s, [step]); t.caps == HeldIn(s, step) && t.saved == s.saved + [s.caps]
  {
    assert [step][1..] == [];
    assert Run(Do(s, step), []) == Do(s, step);
    if step.Using? { LiveSelf(s.lent, step.grant, s.now); }
  }

  /** A call holds exactly what it declared, whatever its caller held and whatever its body opened and left;
      and leaving it gives its caller back exactly what the caller held. */
  lemma CallAttenuates(s: State, needs: set<Cap>, body: seq<Step>)
    requires Runs(s, [Call(needs)] + body + [Leave]) && Nested(body, 0)
    ensures Run(s, [Call(needs)] + body).caps == needs
    ensures var end := Run(s, [Call(needs)] + body + [Leave]); end.caps == s.caps && end.saved == s.saved
  {
    BlockHolds(s, Call(needs), body);
  }

  lemma LeaveCloses(s: State, saved: seq<set<Cap>>, caps: set<Cap>)
    requires s.saved == saved + [caps]
    ensures Run(s, [Leave]).caps == caps && Run(s, [Leave]).saved == saved
  {
    assert [Leave][1..] == [];
    assert Run(Do(s, Leave), []) == Do(s, Leave);
  }

  // ---- how often a grant is used -------------------------------------------------------------------------------

  /** The entries made with the grant or with anything derived from it. */
  function EntriesUnder(lent: seq<Lent>, entries: seq<nat>, g: nat): nat
    decreases |entries|
  {
    if entries == [] then 0 else
      var n := |entries| - 1;
      EntriesUnder(lent, entries[..n], g) + if Under(lent, entries[n], g) then 1 else 0
  }

  ghost predicate Counted(s: State) {
    && WellLinked(s.lent)
    && (forall i :: 0 <= i < |s.entries| ==> s.entries[i] < |s.lent|)
    && forall g :: 0 <= g < |s.lent| ==> CountedOne(s, g)
  }

  ghost predicate CountedOne(s: State, g: nat)
    requires g < |s.lent|
  {
    var l := s.lent[g];
    && l.spent == EntriesUnder(s.lent, s.entries, g)
    && (l.initial.Some? <==> l.usesLeft.Some?)
    && (l.initial.Some? ==> Left(l.initial.value, l.usesLeft.value, l.spent))
  }

  /** What is left of a limit after so many uses, each of them made while something was left. A limit that is
      no finite number is never used up. */
  ghost predicate Left(limit: Number, left: Number, spent: nat) {
    if limit.Real? then left == Real(limit.value - spent as real) && (spent > 0 ==> limit.value - spent as real > -1.0)
    else left == limit && (spent > 0 ==> !limit.MinusInfinity?)
  }

  /** The least whole number not below x. */
  function Ceiling(x: real): int {
    -((-x).Floor)
  }

  /** So many uses are within a limit: none when it is not above 0, and otherwise no more than it rounded up. A
      limit that is not a number, or infinite, sets no bound. */
  ghost predicate WithinLimit(uses: nat, limit: Number) {
    match limit
    case Real(x) => (x <= 0.0 ==> uses == 0) && (x > 0.0 ==> uses as real < x + 1.0)
    case MinusInfinity => uses == 0
    case _ => true
  }

  /** Lineage is settled when a grant is made. */
  lemma {:induction false} UnderSame(a: seq<Lent>, b: seq<Lent>, at: nat, g: nat)
    requires at < |a| <= |b| && forall i :: 0 <= i < |a| ==> a[i].parent == b[i].parent
    ensures Under(a, at, g) == Under(b, at, g)
    decreases at
  {
    if a[at].parent.Some? && a[at].parent.value < at { UnderSame(a, b, a[at].parent.value, g); }
  }

  lemma {:induction false} EntriesSame(a: seq<Lent>, b: seq<Lent>, entries: seq<nat>, g: nat)
    requires |a| <= |b| && (forall i :: 0 <= i < |a| ==> a[i].parent == b[i].parent)
    requires forall i :: 0 <= i < |entries| ==> entries[i] < |a|
    ensures EntriesUnder(a, entries, g) == EntriesUnder(b, entries, g)
    decreases |entries|
  {
    if entries != [] {
      var n := |entries| - 1;
      EntriesSame(a, b, entries[..n], g);
      UnderSame(a, b, entries[n], g);
    }
  }

  /** Parents are older, so nothing made so far comes under a grant yet to be made. */
  lemma {:induction false} NotUnderNewer(lent: seq<Lent>, at: nat, g: nat)
    requires at < g
    ensures !Under(lent, at, g)
    decreases at
  {
    if at < |lent| && lent[at].parent.Some? && lent[at].parent.value < at { NotUnderNewer(lent, lent[at].parent.value, g); }
  }

  lemma {:induction false} NoneUnderNewer(lent: seq<Lent>, entries: seq<nat>, g: nat)
    requires forall i :: 0 <= i < |entries| ==> entries[i] < g
    ensures EntriesUnder(lent, entries, g) == 0
    decreases |entries|
  {
    if entries != [] {
      NoneUnderNewer(lent, entries[..|entries| - 1], g);
      NotUnderNewer(lent, entries[|entries| - 1], g);
    }
  }

  lemma {:induction false} LiveUp(lent: seq<Lent>, at: nat, g: nat, now: int)
    requires Live(lent, at, now) && Under(lent, at, g)
    ensures g < |lent| && OwnReason(lent[g].revoked, lent[g].usesLeft, lent[g].until, now).Usable?
    decreases at
  {
    if at != g { LiveUp(lent, lent[at].parent.value, g, now); }
  }

  lemma EntryCounted(s: State, at: nat)
    requires Counted(s) && Live(s.lent, at, s.now)
    ensures Counted(Do(s, Using(at)))
  {
    hide Live, Under, EntriesUnder;
    var t := Do(s, Using(at));
    assert at < |s.lent| by { LiveSelf(s.lent, at, s.now); }
    var n := |s.entries|;
    forall g | 0 <= g < |t.lent| ensures CountedOne(t, g) {
      assert CountedOne(s, g);
      EntriesSame(s.lent, t.lent, s.entries, g);
      UnderSame(s.lent, t.lent, at, g);
      EntriesMore(t.lent, s.entries, at, g);
      if Under(s.lent, at, g) { LiveUp(s.lent, at, g, s.now); }
    }
  }

  lemma LiveSelf(lent: seq<Lent>, at: nat, now: int)
    requires Live(lent, at, now)
    ensures at < |lent|
  {
  }

  lemma EntriesMore(lent: seq<Lent>, entries: seq<nat>, at: nat, g: nat)
    ensures EntriesUnder(lent, entries + [at], g) == EntriesUnder(lent, entries, g) + if Under(lent, at, g) then 1 else 0
  {
    assert (entries + [at])[..|entries|] == entries;
  }

  lemma NewGrantCounted(s: State, l: Lent)
    requires Counted(s) && l.spent == 0 && l.initial == l.usesLeft && (l.parent.Some? ==> l.parent.value < |s.lent|)
    ensures Counted(s.(lent := s.lent + [l]))
  {
    hide Under, EntriesUnder;
    var t := s.(lent := s.lent + [l]);
    forall g | 0 <= g < |t.lent| ensures CountedOne(t, g) {
      if g < |s.lent| {
        assert CountedOne(s, g);
        EntriesSame(s.lent, t.lent, s.entries, g);
      } else {
        NoneUnderNewer(t.lent, s.entries, g);
      }
    }
  }

  lemma StepCounted(s: State, step: Step)
    requires Counted(s) && Enabled(s, step)
    ensures Counted(Do(s, step))
  {
    hide Live, Under, EntriesUnder;
    var t := Do(s, step);
    match step
    case Using(g) => EntryCounted(s, g);
    case Mint(capability) => NewGrantCounted(s, Lent(capability, None, None, None, None, false, 0));
    case Attenuate(g, uses, until) =>
      var n := NarrowUses(uses, s.lent[g].usesLeft);
      NewGrantCounted(s, Lent(s.lent[g].capability, Some(g), n, n, NarrowUntil(until, s.lent[g].until), false, 0));
    case _ =>
      forall g | 0 <= g < |t.lent| ensures CountedOne(t, g) {
        assert CountedOne(s, g);
        EntriesSame(s.lent, t.lent, s.entries, g);
      }
  }

  lemma {:induction false} RunCounted(s: State, steps: seq<Step>)
    requires Counted(s) && Runs(s, steps)
    ensures Counted(Run(s, steps))
    decreases |steps|
  {
    if steps != [] {
      StepCounted(s, steps[0]);
      RunCounted(Do(s, steps[0]), steps[1..]);
    }
  }

  /** A grant with a limit lets no more blocks be entered than the limit rounded up, counting everything derived
      from it. */
  lemma AtMostItsUses(granted: set<Cap>, steps: seq<Step>, g: nat)
    requires Runs(Start(granted), steps) && g < |Run(Start(granted), steps).lent|
    requires Run(Start(granted), steps).lent[g].initial.Some?
    ensures var s := Run(Start(granted), steps);
      WithinLimit(EntriesUnder(s.lent, s.entries, g), s.lent[g].initial.value)
  {
    RunCounted(Start(granted), steps);
    assert CountedOne(Run(Start(granted), steps), g);
  }

  function Again(n: nat): seq<Step>
    decreases n
  {
    if n == 0 then [] else [Using(1), Leave] + Again(n - 1)
  }

  /** The bound is met: a grant attenuated to x uses, and none of it spent elsewhere, can be used that often. */
  lemma AsOftenAsItsUses(c: Cap, x: real)
    requires x > 0.0
    ensures var steps := [Mint(c), Attenuate(0, Some(Real(x)), None)] + Again(Ceiling(x));
      var s := Run(Start({c}), steps);
      && Runs(Start({c}), steps) && |s.lent| == 2 && s.lent[1].initial == Some(Real(x))
      && EntriesUnder(s.lent, s.entries, 1) == Ceiling(x)
  {
    var first := [Mint(c), Attenuate(0, Some(Real(x)), None)];
    var root := Lent(c, None, None, None, None, false, 0);
    var child := Lent(c, Some(0), Some(Real(x)), Some(Real(x)), None, false, 0);
    var s0, s1, s2 := Start({c}), State({c}, [], [root], 0, [], {}), State({c}, [], [root, child], 0, [], {});
    assert first[1..] == [Attenuate(0, Some(Real(x)), None)] && first[1..][1..] == [];
    assert Do(s0, first[0]) == s1 && Do(s1, first[1]) == s2;
    assert Run(s2, []) == s2 && Run(s1, first[1..]) == s2;
    assert Runs(s2, []) && Runs(s1, first[1..]);
    RunSplit(s0, first, Again(Ceiling(x)));
    UsedAgain(s2, Ceiling(x), x);
  }

  /** Two links, the lower with this much of its uses left. */
  ghost predicate Lending(s: State, left: real) {
    && |s.lent| == 2 && !s.lent[0].revoked && !s.lent[1].revoked
    && s.lent[0].parent.None? && s.lent[0].usesLeft.None? && s.lent[0].until.None?
    && s.lent[1].parent == Some(0) && s.lent[1].usesLeft == Some(Real(left)) && s.lent[1].until.None?
  }

  lemma {:induction false} UsedAgain(s: State, n: nat, left: real)
    requires Lending(s, left) && left > n as real - 1.0
    ensures Runs(s, Again(n))
    ensures var t := Run(s, Again(n));
      && |t.lent| == 2 && t.lent[1].initial == s.lent[1].initial
      && EntriesUnder(t.lent, t.entries, 1) == EntriesUnder(s.lent, s.entries, 1) + n
    decreases n
  {
    hide EntriesUnder;
    if n > 0 {
      assert Under(s.lent, 1, 1) && Under(s.lent, 1, 0);
      var t := Do(s, Using(1));
      assert Live(s.lent, 0, s.now) && Live(s.lent, 1, s.now);
      var u := Do(t, Leave);
      assert u.lent == t.lent == Spent(s.lent, 1);
      EntriesMore(u.lent, s.entries, 1, 1);
      SameEntries(s.lent, u.lent, s.entries);
      UsedAgain(u, n - 1, left - 1.0);
      var rest := Again(n - 1);
      assert Again(n)[0] == Using(1) && Again(n)[1..] == [Leave] + rest && ([Leave] + rest)[1..] == rest;
    }
  }

  lemma {:induction false} SameEntries(a: seq<Lent>, b: seq<Lent>, entries: seq<nat>)
    requires |a| == |b| && forall i :: 0 <= i < |a| ==> a[i].parent == b[i].parent
    ensures EntriesUnder(a, entries, 1) == EntriesUnder(b, entries, 1)
    decreases |entries|
  {
    if entries != [] {
      SameEntries(a, b, entries[..|entries| - 1]);
      SameUnder(a, b, entries[|entries| - 1]);
    }
  }

  lemma {:induction false} SameUnder(a: seq<Lent>, b: seq<Lent>, at: nat)
    requires |a| == |b| && forall i :: 0 <= i < |a| ==> a[i].parent == b[i].parent
    ensures Under(a, at, 1) == Under(b, at, 1)
    decreases at
  {
    if at < |a| && a[at].parent.Some? && a[at].parent.value < at { SameUnder(a, b, a[at].parent.value); }
  }

  // ---- revocation ------------------------------------------------------------------------------------------------

  ghost predicate RevokedIn(s: State, g: nat) {
    g < |s.lent| && s.lent[g].revoked
  }

  lemma RevokedStays(s: State, step: Step, g: nat)
    requires Counted(s) && Enabled(s, step) && RevokedIn(s, g)
    ensures RevokedIn(Do(s, step), g)
    ensures EntriesUnder(Do(s, step).lent, Do(s, step).entries, g) == EntriesUnder(s.lent, s.entries, g)
  {
    hide EntriesUnder, Under, Live;
    var t := Do(s, step);
    EntriesSame(s.lent, t.lent, s.entries, g);
    if step.Using? {
      LiveSelf(s.lent, step.grant, s.now);
      EntriesMore(t.lent, s.entries, step.grant, g);
      UnderSame(s.lent, t.lent, step.grant, g);
      if Under(s.lent, step.grant, g) { LiveUp(s.lent, step.grant, g, s.now); }
    }
  }

  /** Once a grant is revoked, no block is ever entered again with it or with anything derived from it, before or
      after. */
  lemma {:induction false} RevokedIsOver(s: State, steps: seq<Step>, g: nat)
    requires Counted(s) && Runs(s, steps) && RevokedIn(s, g)
    ensures RevokedIn(Run(s, steps), g)
    ensures EntriesUnder(Run(s, steps).lent, Run(s, steps).entries, g) == EntriesUnder(s.lent, s.entries, g)
    decreases |steps|
  {
    if steps != [] {
      hide Do, Enabled, EntriesUnder;
      RevokedStays(s, steps[0], g);
      StepCounted(s, steps[0]);
      RevokedIsOver(Do(s, steps[0]), steps[1..], g);
    }
  }

  // ---- what is live, and until when ------------------------------------------------------------------------------

  /** Not revoked, with something left of its uses, and within its time; a limit that is not a number, or
      infinite, is none. */
  ghost predicate Good(l: Lent, now: int) {
    && !l.revoked
    && (l.usesLeft.Some? ==> l.usesLeft.value.Infinity? || l.usesLeft.value.NaN? || (l.usesLeft.value.Real? && l.usesLeft.value.value > 0.0))
    && (l.until.Some? ==> l.until.value.Infinity? || l.until.value.NaN? || (l.until.value.Real? && now as real <= l.until.value.value))
  }

  ghost predicate AllGood(lent: seq<Lent>, at: nat, now: int) {
    forall g: nat :: Under(lent, at, g) ==> g < |lent| && Good(lent[g], now)
  }

  lemma OneUp(lent: seq<Lent>, at: nat, now: int)
    requires WellLinked(lent) && at < |lent|
    ensures var up := lent[at].parent;
      && (Live(lent, at, now) <==> Good(lent[at], now) && (up.Some? ==> Live(lent, up.value, now)))
      && (AllGood(lent, at, now) <==> Good(lent[at], now) && (up.Some? ==> AllGood(lent, up.value, now)))
  {
    hide Good;
    assert OwnReason(lent[at].revoked, lent[at].usesLeft, lent[at].until, now).Usable? <==> Good(lent[at], now) by { OwnIsGood(lent[at], now); }
    if AllGood(lent, at, now) {
      assert Under(lent, at, at);
      if lent[at].parent.Some? {
        var up := lent[at].parent.value;
        forall g: nat | Under(lent, up, g) ensures g < |lent| && Good(lent[g], now) { assert Under(lent, at, g); }
      }
    }
    if Good(lent[at], now) && (lent[at].parent.Some? ==> AllGood(lent, lent[at].parent.value, now)) {
      forall g: nat | Under(lent, at, g) ensures g < |lent| && Good(lent[g], now) {
        if at != g { assert Under(lent, lent[at].parent.value, g); }
      }
    }
  }

  lemma OwnIsGood(l: Lent, now: int)
    ensures OwnReason(l.revoked, l.usesLeft, l.until, now).Usable? <==> Good(l, now)
  {
  }

  /** A grant is live exactly while nothing is wrong with it nor with any grant it was derived from. */
  lemma {:induction false} LiveExactly(lent: seq<Lent>, at: nat, now: int)
    requires WellLinked(lent) && at < |lent|
    ensures Live(lent, at, now) <==> AllGood(lent, at, now)
    decreases at
  {
    hide Live, AllGood, Good;
    OneUp(lent, at, now);
    if lent[at].parent.Some? { LiveExactly(lent, lent[at].parent.value, now); }
  }

  /** The time a grant was lent for is over. */
  ghost predicate ExpiredIn(s: State, g: nat) {
    && g < |s.lent| && s.lent[g].until.Some?
    && (s.lent[g].until.value.MinusInfinity? || (s.lent[g].until.value.Real? && s.now as real > s.lent[g].until.value.value))
  }

  lemma ExpiredStays(s: State, step: Step, g: nat)
    requires Counted(s) && Enabled(s, step) && ExpiredIn(s, g)
    ensures ExpiredIn(Do(s, step), g)
    ensures EntriesUnder(Do(s, step).lent, Do(s, step).entries, g) == EntriesUnder(s.lent, s.entries, g)
  {
    hide EntriesUnder, Under, Live;
    var t := Do(s, step);
    EntriesSame(s.lent, t.lent, s.entries, g);
    if step.Using? {
      LiveSelf(s.lent, step.grant, s.now);
      EntriesMore(t.lent, s.entries, step.grant, g);
      UnderSame(s.lent, t.lent, step.grant, g);
      if Under(s.lent, step.grant, g) { LiveUp(s.lent, step.grant, g, s.now); }
    }
  }

  /** Once its time is over, no block is entered again with a grant or with anything derived from it. */
  lemma {:induction false} ExpiredIsOver(s: State, steps: seq<Step>, g: nat)
    requires Counted(s) && Runs(s, steps) && ExpiredIn(s, g)
    ensures var t := Run(s, steps);
      ExpiredIn(t, g) && EntriesUnder(t.lent, t.entries, g) == EntriesUnder(s.lent, s.entries, g)
    decreases |steps|
  {
    hide EntriesUnder;
    if steps != [] {
      ExpiredStays(s, steps[0], g);
      StepCounted(s, steps[0]);
      ExpiredIsOver(Do(s, steps[0]), steps[1..], g);
    }
  }
}
