# Verified models of the Smarsh runtime

A Dafny project that models the parts of the Smarsh runtime whose correctness is hardest to see by reading them,
and proves what they are for. `dafny verify dfyconfig.toml` checks all of it.

**The prover** (`integers`, `rational`, `text`, `linear`, `formula`, `fourier`, `dpll`, `program`, `vcgen`, `denote`,
`fragment`, `symbols`, `soundness`, `descent`, `termination`, `refutation`, `counterexample`, `annotation`, `limits`,
`zeno`, `verdicts`). Exact rationals, Fourier-Motzkin elimination and the DPLL
search over three-valued assignments are each proved exact in both directions, apart from the answer `unknown`. On top of
them the verifier is proved sound: symbolic execution with path splitting and the loop rule is simulated by every run of
the function, so a call of a function whose conditions are all proved ends with every `ensures` true whose names are bound
there. Every pass of its loops starts with the variant at or above zero and leaves it lower; where all is counted in whole
numbers that makes every call end. It is complete too, as far as it can be: a refuted condition of a function without loops
comes from a call, on rational numbers, that breaks the promise, so that when every condition is decided "proved" means
exactly that the promise is kept; and a refuted loop annotation comes from a state in which a pass may begin and from which
it fails. `limits` has six shapes outside the fragment, each with a function that is proved though a call of it breaks its
promise.

**Regular expressions** (`pattern`, `caseless`, `thompson`, `paths`, `parses`, `captures`, `backtrack`, `pike`, `search`,
`longest`, `regex`). The compiler, with its back-patched jumps, produces a program whose paths consume exactly what the pattern matches.
The machine over lists of threads returns, slot for slot, what a backtracking matcher that prefers the first way of each
split returns; every capture group it reports bounds a stretch its own pattern matches, and a group every match must pass is
reported; its work is bounded; and where the next character decides every choice of the pattern, the match is the longest.

**Scopes and engines** (`lang`, `ranges`, `bindings`, `scopes`, `caches`, `env`, `walker`, `frames`, `rangelines`, `repeats`,
`compiled`, `fuel`, `ends`, `misled`). A scope's two representations do to its bindings what each operation's name says and
move exactly the right counters, whatever the names. On programs in which no function repeats a parameter, inline caches
answer what a full walk would over any sequence of scope operations; and the compiling engine, running on inline caches,
kept frames, sentinels and counted loops, leaves the state the tree-walker leaves and ends the way it ends. Only a bad
`range` over which a loop counts is reported at another line, exactly when the loop and the call stand on different ones.
A repeated parameter breaks both results, and `misled` has the program.

**Both together** (`interpreted`, `promised`). The verifier's own account of a program and the tree-walker's are shown to be
one: on numbers the tree-walker goes through the same steps, with its values in cells and scopes on a heap. So a proved
function, called in the interpreter, gives back a value that keeps its promise, or is stopped by a limit, and fails in no
other way.

**Numbers** (`modular`, `primes`, `millerrabin`, `paillier`, `decimal`, `decimaltext`, `numerals`). Square-and-multiply, inverses,
Fermat's little theorem from the binomial theorem, Miller-Rabin, Paillier with its homomorphic operations; exact decimals
and precisely what their rounding does.

**Text** (`json`, `jsonreader`, `jsongrammar`, `jsonkeys`, `jsonlexis`, `jsonroundtrip`, `positions`, `editdistance`). The JSON reader, which
accepts exactly what the grammar of RFC 8259 derives within its two limits, and the writer; the line-and-column search; and
the bounded edit distance.

**Runs** (`grants`, `authority`, `budgets`, `audit`). Delegated authority and budgets as step machines, and the
hash-chained audit record.

Where the code and its documentation part, the model follows the code:

- `src/regex.js:20-21` and `src/regex.js:459-460` speak of leftmost-longest; the machine returns the match its first
  choices lead to (`Searching.NotLongest`), which is the longest when the next character decides every choice or the
  pattern has one width (`Longest.LeftmostLongest`).
- `src/compile.js:823-825` says a bad call of `range` fails exactly as it would otherwise; the counted loop reports it at the
  line of the `for`, the tree-walker at the line of the call, and a loop may be written over several lines
  (`RangeLines.BadRangeLine`, `RangeLines.PartingProgram`).
- `src/env.js:81-85` says that a change of a scope moves the counter of every name it affects. The ninth binding of a frame
  turns it into a map, in which a repeated parameter means its last argument where it meant its first, and no counter moves
  (`EnvStore.RepeatedParameter`); a cache that has found it goes on answering for the first (`Caches.RepeatsMislead`).
  Nothing refuses a function that repeats a parameter. With
  `fn f(x, x) { fn g() { return x } let p = g() let a = 0 let b = 0 let c = 0 let d = 0 let e = 0 return p == g() }` the
  tree-walker answers false to `f(1, 2)`, and a cache makes it true (`Misled.RepeatedProgram`, `Misled.CacheMisled`).
- `src/decimal.js:22` says there is no rounding you did not ask for; a product whose scales add up to more than 34 keeps the
  full coefficient at scale 34 and is too large by a power of ten (`Decimals.MulExact`).
- `src/decimal.js:99-101` says half to even; one guard digit is kept, so a tail cut off below a 5 is forgotten
  (`Decimals.DivRounds`, `Decimals.RescaleRounds`, `Decimals.NotAlwaysHalfEven`).
- `src/verify.js:310-312` calls forgetting an unannotated loop the honest reading; an annotated `for`, or `while true`
  left by `break`, is instead followed by a state that cannot exist (`Limits.AfterForUnreachable`,
  `Limits.AfterWhileTrueUnreachable`, `Limits.LoopProvesFalse`). In a loop with another test, `break` and `continue` are
  taken for statements after which the pass goes on (`Limits.BreakProvesFalse`, `Limits.ContinueProvesFalse`).
- `src/verify.js:281` runs an `else` only if it is a block and takes an `else if` to do nothing
  (`Limits.ElseIfProvesFalse`); and a product is one unknown before and after what it mentions has changed
  (`src/verify.js:164-169`, `Limits.UnknownProvesFalse`). The number 1 and the name `n1` have one key, so that `old(1)`
  and `old(n1)` are taken for one (`src/verify.js:88-97`, `Limits.KeyProvesFalse`).
- `src/interpreter.js:1898-1901` and `src/interpreter.js:1933` take a variant for what proves that a loop ends. It is a
  number, not a whole number: `while i > 0 variant i { i = i / 2 }` is proved, passes every check, and never ends
  (`Zeno.ProvedNeverEnds`). What a proved variant gives is `Descent.FunctionDescends`, and the end of every call where
  all numbers are whole (`Termination.FunctionEnds`).
- `src/logic.js:247-251` tells atoms apart by their text; two that print alike make the decision wrong
  (`Dpll.CollisionUnsound`).
- `src/decimal.js:148-156` prints a decimal of negative scale as its coefficient and a point, so 1200 held as 12 hundreds
  prints as `12.` and is read back as 12 (`DecimalText.ParseShow`).
- `src/json.js:266-267` says a decimal is read back as the same decimal; without places it comes back as an integer, and
  with a negative scale it is refused (`JsonRoundTrip.WrittenIsRead`).
- `src/json.js:273-275` lets the writer nest one level deeper than the reader accepts (`JsonRoundTrip.RoundTrip`).

## Model

| member | source | states |
|---|---|---|
| Rational.GcdLoop | src/logic.js:25-30 | the loop computes the greatest common divisor of the absolute values |
| Rational.Canonical | src/logic.js:32-39 | reduced rationals are equal exactly when their values are, so structural comparison is enough |
| Rational.Add | src/logic.js:82 | addition is exact |
| Rational.Sub | src/logic.js:83 | subtraction is exact |
| Rational.Mul | src/logic.js:84 | multiplication is exact |
| Rational.Div | src/logic.js:85-88 | division by a non-zero rational is exact |
| Rational.Sign | src/logic.js:90 | the sign is that of the value |
| LinearExpr.AddTermsShape | src/logic.js:112-119 | adding never stores a zero coefficient nor a variable twice |
| LinearExpr.PlusEval | src/logic.js:112-119 | a sum has, at every valuation, the sum of the values |
| LinearExpr.MinusEval | src/logic.js:125 | and a difference the difference |
| LinearExpr.NegateEval | src/logic.js:120-124 | and a negation the opposite |
| LinearExpr.ScaleEval | src/logic.js:126-132 | and a multiple the multiple |
| LinearExpr.LinearTextInjective | src/logic.js:136-140 | the printed form, by which atoms are told apart, determines the expression when no name has a blank |
| Formulas.ConjMeans | src/logic.js:155-161 | `and` keeps its meaning through flattening, short-cuts and dropping |
| Formulas.DisjMeans | src/logic.js:162-168 | and so does `or` |
| Formulas.NegatedMeans | src/logic.js:169-174 | and `not` |
| Formulas.ImpliesMeans | src/logic.js:175 | and `implies` |
| FourierMotzkin.EliminateSound | src/logic.js:194-217 | whatever satisfies the constraints satisfies them with a variable eliminated |
| FourierMotzkin.EliminateComplete | src/logic.js:194-217 | and a rational point that satisfies the result extends to the variable, strictness kept |
| FourierMotzkin.SatisfiableExact | src/logic.js:189-226 | false: no real point satisfies the constraints; true: a rational one does; unknown: exactly when the budget is passed |
| FourierMotzkin.BudgetEnough | src/logic.js:219-222 | a budget above what the number of constraints and of variables can lead to is never passed |
| FourierMotzkin.CollectVariables | src/logic.js:191-192 | the variables, each once, as the constraints mention them |
| FourierMotzkin.SplitBounds | src/logic.js:195-205 | the loop splits constraints into lower bounds, upper bounds and the rest |
| FourierMotzkin.PairBounds | src/logic.js:208-214 | every lower bound is paired with every upper one |
| FourierMotzkin.Satisfiable | src/logic.js:189-226 | the loop over a reassigned list computes the decision proved exact |
| Dpll.CollectAtomsCovers | src/logic.js:232-246 | the atoms collected are those of the formula, each once |
| Dpll.EvaluateSound | src/logic.js:253-286 | a truth value reached from a partial assignment is the formula's in every model that agrees with it |
| Dpll.EvaluateTotal | src/logic.js:253-286 | with every atom assigned there is a truth value |
| Dpll.ConstraintSetsMean | src/logic.js:293-331 | a point agrees with an assignment exactly when it satisfies one of the constraint sets made from it, disequalities split |
| Dpll.ConstraintSetsOf | src/logic.js:293-331 | the loops compute those sets |
| Dpll.SearchSound | src/logic.js:342-365 | a search that finds something stands on a model |
| Dpll.SearchComplete | src/logic.js:342-365 | a search that finds nothing has shut out every model |
| Dpll.SearchInPlace | src/logic.js:339-367 | the search that writes and undoes entries of one array gives the verdict of the pure one and leaves the array as it was |
| Dpll.IsSatisfiableInPlace | src/logic.js:335-368 | and so does the whole decision |
| Dpll.IsSatisfiableExact | src/logic.js:335-368 | if no two different atoms print alike, false: no model; true: there is a rational-and-boolean one |
| Dpll.IsValidExact | src/logic.js:371-375 | under the same condition, true: the formula holds in every model; false: a model refutes it |
| Dpll.IsSatisfiableUnknown | src/logic.js:335-368 | unknown only past the limit on atoms, or where splitting or elimination gave up |
| Dpll.IsSatisfiableDecides | src/logic.js:335-368 | limits that grow with the number of atoms and variables alone suffice for an answer |
| Dpll.IsValidDecides | src/logic.js:371-375 | with such limits the answer is true exactly when the formula holds in every model |
| Dpll.PlainUnambiguous | src/logic.js:247-251 | no two different atoms print alike when no variable name has a blank |
| Dpll.CollisionUnsound | src/logic.js:247-251 | any two atoms that print alike and differ in some model make a satisfiable formula that is answered false |
| Dpll.SpacedNamesCollide | src/logic.js:247-251 | such a formula, from a variable whose name has blanks |
| Denotation.LinearDenotes | src/verify.js:108-161 | a term translated without unknowns has, under the symbolic environment, the term's value |
| Denotation.FormulaDenotes | src/verify.js:172-207 | a test translated without unknowns holds in a model exactly when the test does |
| Denotation.TestEvaluates | src/verify.js:172-207 | and it evaluates once the names it reads are bound |
| Symbols.StepTidy | src/verify.js:257-299 | every symbol that a step puts into the state or a condition is a name in scope or older than the counter |
| VcGen.Verifier.Add | src/verify.js:238-240 | a condition is pushed onto the list |
| VcGen.Verifier.RunAll | src/verify.js:243-255 | the loops over statements and states compute the pure execution, path limit included |
| VcGen.Verifier.StepOne | src/verify.js:257-299 | and the step on each kind of statement |
| VcGen.Verifier.LoopOne | src/verify.js:313-367 | and the loop rule |
| VcGen.Verifier.CheckPasses | src/verify.js:345-360 | and the conditions of the passes, in order: the invariants restored, the variant lower than before, the variant not negative; `Descent.PassDescends` and `Annotation.RefutedAnnotation` say what they are worth, proved and refuted |
| Soundness.StepSound | src/verify.js:257-299 | one statement of a run is followed by one of the states the step returns, if what was recorded is true |
| Soundness.IfSound | src/verify.js:275-284 | the path taken by a run is among the two that `if` splits into |
| Soundness.LoopSound | src/verify.js:313-367 | a real loop, iterated any number of times, is followed by the state its summary leaves |
| Soundness.PassSound | src/verify.js:332-354 | one pass from a state that satisfies the invariant and the test restores the invariant |
| Soundness.RunFromSound | src/verify.js:243-255 | so is a whole body, returns on the way included |
| Descent.PassDescends | src/verify.js:345-360 | a pass, whatever it comes to, starts with the variant at or above zero and, if it ends, has lowered it; the loops inside it do the same |
| Descent.FunctionDescends | src/verify.js:345-360 | so does every pass of every annotated loop of every call of a proved function, ended or not; and the call does not fail where the verifier has looked at everything |
| Termination.WhileEnds | src/verify.js:345-360 | a loop whose variant is whole, like all that is stored, ends: no more passes are left than its value and one |
| Termination.FunctionEnds | src/interpreter.js:1898-1901 | every call, on whole numbers, of a proved function whose loops all have variants and which divides nothing ends, and not in a failure |
| Zeno.ProvedNeverEnds | src/interpreter.js:1898-1901 | a function with a variant that is proved, and of which no call with a positive number ends |
| Refutation.JudgeMeans | src/verify.js:412-419 | the verdict on a condition: proved, it holds in every model; refuted, some rational model falsifies it whatever the unknowns stand for; given room, exactly what holds in every model is proved, and what mentions no unknown gets an answer |
| Refutation.StepExclusive | src/verify.js:243-284 | of the states a step splits into, one at most has a path that holds, and it continues the path there was |
| Counterexample.CallFollowsPath | src/verify.js:391-403 | in a function without loops, symbols that make the precondition and the path of a final state true are a call that takes that path to its end |
| Counterexample.RefutedBreaks | src/verify.js:391-419 | a refuted condition of a function without loops comes from a call, on rational numbers, that starts in the precondition and ends with a postcondition false |
| Annotation.RefutedEntry | src/verify.js:325-328 | a refutation of the invariants on entry comes from a store that the state at the loop stands for, with an invariant false |
| Annotation.RefutedAnnotation | src/verify.js:330-360 | "a counterexample here really does refute the annotation": it comes from a store where invariants and test hold and from which a pass breaks an invariant or does not lower the variant, or where the variant is negative |
| Annotation.LeftEnds | src/verify.js:362-367 | where the path holds that a loop leaves behind, the invariants hold and the test does not |
| Fragment.SeqReturns | src/verify.js:270-273 | a body whose every path returns does return, and a value when every return gives one |
| Soundness.FunctionSound | src/verify.js:372-420 | if all conditions of a function of the fragment are proved and nothing became unknown, every `ensures` is true at the end of every call from a state that satisfies `requires`, `old` read at entry; it is never false, and true whenever its names are bound there, as they are if every path returns and it reads only parameters, globals and `result` |
| Verdicts.VerifyFunction | src/verify.js:372-420 | the whole entry: a verdict on each condition in order. When nothing became unknown: if all are proved, a function of the fragment keeps its promise in every call, its loops descend in every call, and it ends on whole numbers if it counts in them; if one is refuted, a function without loops breaks its promise in some call; and if all are decided, such a function keeps its promise exactly when all are proved |
| Interpreted.OperatesAlike | src/interpreter.js:373-516 | the operators of the two accounts give the same numbers and truth values |
| Interpreted.StmtRuns | src/interpreter.js:373-516 | a statement on numbers, run by the tree-walker in a heap that stands for the store, ends, returns, breaks or continues as in the verifier's account, in a heap that stands for the store there, unless a limit stops it |
| Interpreted.PassesRun | src/interpreter.js:373-516 | so does a loop, left early or not, whose passes share one scope that is cleared, or have the current one |
| Promised.CallRuns | src/interpreter.js:1301-1350 | a call in a new frame gives back the value that the verifier's call ends with, or is stopped by a limit |
| Promised.ProvedInInterpreter | src/verify.js:1-30 | what is proved of a function holds of every call that the interpreter makes of it on numbers that meet its precondition: it gives back a value that keeps the promise, or is stopped by a limit, and fails in no other way |
| Limits.AfterForUnreachable | src/verify.js:363-366 | after an annotated `for` no model satisfies the path |
| Limits.AfterWhileTrueUnreachable | src/verify.js:363-366 | nor after an annotated `while true` |
| Limits.UnreachableProved | src/verify.js:397-403 | from such states every postcondition passes the solver |
| Limits.LoopProvesFalse | src/verify.js:313-403 | two functions, one with each such loop, that are proved for `ensures false` and end normally |
| Limits.ElseIfIgnored | src/verify.js:281-282 | a step on an `if` with an `else if` is the step on the `if` without it |
| Limits.ElseIfProvesFalse | src/verify.js:281-282 | a function with an `else if` is proved and a call of it breaks its promise |
| Limits.UnknownsIgnoreState | src/verify.js:164-169 | a product before an assignment and after it are one unknown, whatever the environments |
| Limits.UnknownProvesFalse | src/verify.js:164-169 | a function that squares a name before and after changing it is proved and a call of it breaks its promise |
| Limits.BreakProvesFalse | src/verify.js:293-297 | a function that leaves an annotated loop by `break` is proved and a call of it breaks its promise |
| Limits.ContinueProvesFalse | src/verify.js:293-297 | so is one whose `continue` passes over the assignment that restores the invariant |
| Limits.KeyProvesFalse | src/verify.js:378-389 | a function whose two `old` expressions have one key is proved and a call of it breaks its promise |
| Patterns.CheckInSet | src/regex.js:258-264 | the loop decides membership in a union of ranges, or outside it |
| Patterns.FoldCaseTwice | src/regex.js:512-516 | folding is its own inverse |
| Caseless.CaseBlindAt | src/regex.js:447-453 | ignoring case, a pattern matches from a place exactly when it does in the same text with letters in the other case |
| Caseless.LetterHits | src/regex.js:508-516 | a character stands for itself and, ignoring case, for the other case of the same letter, and for nothing else |
| Thompson.PatchJumps | src/regex.js:308-324 | patching the jumps of an alternation at the end gives the code with the right targets |
| Thompson.PatchSplits | src/regex.js:346-356 | and so for the splits of optional copies |
| Thompson.Builder.Compile | src/regex.js:283-358 | pushing and patching appends exactly the node's code and counts its slots |
| Thompson.Builder.CompilePattern | src/regex.js:371-377 | the whole program, the match itself saved as group 0 |
| Paths.Walk | src/regex.js:283-358 | what a node matches can be walked through its code, from first instruction to just past the last |
| Captures.Leave | src/regex.js:283-358 | a path that enters a node's code leaves it just past the end, having consumed what the node matches and set its slots as one derivation of that match does, nested nullable loops included |
| Parses.ParseGenuine | src/regex.js:283-358 | in any derivation of a match, what a group's slots are left with bounds a stretch the group's own pattern matches |
| Parses.CertainSet | src/regex.js:283-358 | a group under no alternation and under no repeat that may be passed over is set by every derivation |
| Parses.LastPass | src/regex.js:326-356 | of a group that is repeated, the last pass is the one reported |
| Captures.LeaveStar | src/regex.js:333-341 | a loop, its body nullable or not, is passed a finite number of times |
| Searching.ProgramMatches | src/regex.js:371-377 | a path from the program's first instruction to its last consumes i..j exactly when the pattern matches i..j |
| Backtracking.BacktrackSound | src/regex.js:402-475 | what the preferring matcher returns is the slots at the end of a path |
| Backtracking.BacktrackComplete | src/regex.js:402-475 | and it returns something whenever there is a path, loops cut out |
| PikeVm.PopMarked | src/regex.js:409-410 | skipping a marked instruction loses no match that is not preferred already |
| PikeVm.PopConsumer | src/regex.js:433-434 | an instruction that consumes joins the list in order of preference |
| PikeVm.PopPasser | src/regex.js:412-432 | what an instruction passes control to waits in its place |
| PikeVm.ProgramClosed | src/regex.js:283-377 | no instruction of a compiled program leads outside it or saves outside the slots |
| RegexEngine.Regex.AddThread | src/regex.js:402-437 | terminates on any program, expands each instruction at most once per list, and keeps the list worth what the added thread is worth |
| RegexEngine.Regex.Advance | src/regex.js:445-475 | one position to the next keeps the preferred match |
| RegexEngine.Regex.RunFrom | src/regex.js:439-477 | from one start the machine returns the preferred match, slot for slot, expanding at most program length times what is left of the subject |
| RegexEngine.Regex.Exec | src/regex.js:393-490 | None exactly when no start matches; otherwise the first start that does, its preferred match as captures: group 0 the match, every group reported a stretch its own pattern matches, every group that the match must pass reported; quadratic in the subject at worst |
| RegexEngine.Regex.Test | src/regex.js:492 | true exactly when some start matches |
| RegexEngine.Regex.All | src/regex.js:495-506 | the loop terminates and returns the matches found by searching on from each, in order, nothing passed over, their groups as good as those of one search |
| Searching.SpansReport | src/regex.js:480-490 | the captures made from the slots: group 0 is the match, each other group is absent or a stretch its pattern matches, and those the match must pass are there |
| Searching.AcceptedMatches | src/regex.js:393-490 | what is accepted from a start the pattern matches from there, with the slots of one derivation of that match |
| Searching.SearchMeans | src/regex.js:393-490 | nothing is found exactly when no start at or after `from` matches; otherwise the leftmost that does |
| Searching.FindAllMeans | src/regex.js:495-506 | in order, without overlap, zero-width ones included, nothing passed over, nothing left unless the limit was reached |
| Searching.NotLongest | src/regex.js:455-461 | `a\|ab` finds `a` in "ab" |
| Longest.SplitsDecided | src/regex.js:283-358 | where the next character decides every choice of a pattern, at most one way of each split leads to a match |
| Longest.PreferredIsLongest | src/regex.js:439-477 | then the preferred match ends no earlier than any other from that start |
| Longest.WidthHolds | src/regex.js:283-358 | every match of a pattern of one width is that long |
| Longest.LeftmostLongest | src/regex.js:393-490 | the match found for either kind of pattern is the longest from the leftmost start that has one |
| Longest.WhichAreDecisive | src/regex.js:459-460 | `a*b` meets the condition and `a\|ab` does not |
| Bindings.FirstIsLast | src/env.js:153-178 | scanning the arrays and entering them into a map agree on every name if and only if no name is bound twice |
| Bindings.FoundPut | src/env.js:307-362 | binding a name changes what that name finds and nothing else, unless a name bound twice passes from the arrays into the map |
| Bindings.FoundDelete | src/env.js:364-391 | deleting a name that is bound once changes nothing else, splicing the arrays included |
| Bindings.FoundRetake | src/env.js:213-233 | a frame taken back finds each name that it does not drop where it found it |
| EnvStore.Env.Vars | src/env.js:153-165 | the view: of a name bound twice the last binding stays |
| EnvStore.Env.Has | src/env.js:168-172 | decides whether the name is bound here |
| EnvStore.Env.Own | src/env.js:174-178 | the slot bound here |
| EnvStore.Env.AdoptFrame | src/env.js:194-200 | the parameters are bound in order, repeated or not, and no counter moves |
| EnvStore.Env.ReuseFrame | src/env.js:213-233 | the parameters keep their slots in order with new values, the rest is gone, and exactly its counters have moved, once for each binding |
| EnvStore.Env.Declare | src/env.js:279-284 | a fresh slot is put in, or the name was bound already and nothing changes |
| EnvStore.Env.ClearVars | src/env.js:290-305 | nothing is bound, and exactly the counters of what was bound have moved, once for each binding |
| EnvStore.Env.PutSlot | src/env.js:307-362 | in place of the first binding, at the end, or past eight by way of the view; through borrowed names and stale storage; one counter moves |
| EnvStore.Env.DeleteVar | src/env.js:364-391 | the binding that is found is taken out; one counter moves if there was one |
| EnvStore.Env.Lookup | src/env.js:393-410 | the slot in the nearest scope of the chain that binds the name |
| EnvStore.RepeatedParameter | src/env.js:153-200 | after the frame of a call with parameters x and x is viewed as a map, x is the second slot where it was the first, and no counter has moved |
| Caches.AdoptKeeps | src/env.js:180-200 | adopting a frame nothing has looked through leaves every cache right |
| Caches.ReuseKeeps | src/env.js:202-233 | so does taking a frame back while it binds its parameters |
| Caches.ViewKeeps | src/env.js:153-165 | so does viewing a scope as a map when no name is bound twice |
| Caches.ReadsRight | src/compile.js:125-151 | over any run of scope operations, conversions included, in which no parameter list repeats a name, a cached read answers what a full walk finds |
| Caches.ReadsRightFromStart | src/compile.js:125-151 | in particular from the empty heap |
| Caches.RepeatsMislead | src/env.js:334-339 | for every parameter list that repeats a name there is a run of scope operations after which a cached read answers for another cell than a full walk finds |
| Caches.ReuseNeedsParameters | src/env.js:213-233 | a frame taken back after a parameter was removed would make a cache answer wrongly |
| Compiled.Engine.Resolve | src/compile.js:140-150 | an inline cache answers the cell a full walk finds |
| Compiled.Engine.EvalExpr | src/compile.js:109-283 | a compiled expression gives the value or failure, line included, and state of the walker that counts its loops over `range` |
| Compiled.Engine.EvalBinary | src/compile.js:417-498 | names read in place and the fast operators agree with the general operator |
| Compiled.Engine.EvalAssign | src/compile.js:305-345 | assignment through a cache |
| Compiled.Engine.EvalCall | src/compile.js:500-587 | callee, arguments in order, then the call |
| Compiled.Engine.CallFunction | src/compile.js:932-953 | at the call's boundary sentinels become the value, or the failure, that the exceptions become |
| Compiled.Engine.MakeFrame | src/interpreter.js:1307-1349 | the walker's frame: the one kept for this depth if the declaration may keep any and it is still in order, otherwise a new one |
| Compiled.Engine.TakeBack | src/env.js:213-233 | the locals go with their counters, the parameters get new values in their cells, and every cache stays right |
| Frames.FrameProper | src/interpreter.js:1307-1349 | new or taken back, the frame hangs under the function's scope, binds the parameters in order to the arguments and nothing else, leaves all else alone, and is none kept for another depth |
| Compiled.Engine.RunStmt | src/compile.js:591-673 | a compiled statement ends with the sentinel that stands for the walker's exception, value and line in the engine's fields |
| Compiled.Engine.RunStmts | src/compile.js:743-766 | blocks of none, one or many statements, with either rule for their value |
| Compiled.Engine.RunScoped | src/compile.js:725-734 | the scope is restored however the block ends |
| Compiled.Engine.RunWhile | src/compile.js:771-810 | the loop and its shared, fresh or enclosing scope |
| Compiled.Engine.RunFor | src/compile.js:834-926 | the loop over a list or, when `range` is the builtin, over a count |
| Compiled.Engine.Counted | src/compile.js:880-903 | counting simulates iterating over the list `range` would build, which `Ranges.RangeCounts` describes |
| Compiled.Engine.Listed | src/compile.js:905-921 | iterating over a list |
| Compiled.Engine.Run | src/compile.js:957-964 | a whole program, in which no function, nor any it starts with, repeats a parameter: the walker's scopes, cells, kept frames and count of steps; its result or failure too if every loop over a call of `range` stands on the line of that call, and otherwise the same but for the two lines of such a loop |
| Misled.RepeatedProgram | src/env.js:334-339 | a program that repeats a parameter, and on which the tree-walker answers false |
| Misled.CacheMisled | src/compile.js:140-150 | at the two reads that decide it the scope is one and no counter has moved, but a walk finds another cell: by the cache the answer is true |
| Compiled.FastIsOperate | src/compile.js:286-297 | on two numbers the fast operators are the general ones |
| Ranges.RangeCounts | src/builtins.js:136-138 | item k of a range is the start and k steps, for every k for which that lies before the end in the direction of the step and for no other |
| Ranges.RangeCall | src/builtins.js:127-140 | and so is the list that a call with one, two or three numbers returns; a step of 0 fails, and any other number of arguments |
| RangeLines.CountedSubject | src/compile.js:826-832 | when the name means the builtin, the subject is the list of the range and evaluating it does nothing else |
| RangeLines.CountingSame | src/compile.js:834-903 | counting instead of building the list leaves the same state and ends the same way, but for the lines of bad ranges over which the listed loops count |
| RangeLines.AlwaysAlike | src/compile.js:834-903 | on every program the state is the same and at most a line differs |
| RangeLines.BadRangeLine | src/compile.js:852-857 | at a bad range the failures are those of the two lines, and equal exactly when the lines are |
| RangeLines.PartingProgram | src/compile.js:852-857 | a program that fails at line 2 in the tree-walker and at line 1 when counted |
| Fuel.ProgramMore | src/interpreter.js:373-516 | the result of a program that ends does not depend on the model's fuel |
| Ending.EveryProgramEnds | src/interpreter.js:325-337 | the step and depth limits make every program end, in a value or a failure |
| Integers.EgcdCorrect | src/bigmath.js:19-23 | the same divisor as Euclid's, as a combination of the arguments, dividing both |
| Integers.CommonDivisor | src/bigmath.js:31 | every common divisor divides it |
| Modular.WrapIsMod | src/bigmath.js:9 | the double remainder is the residue, for negative numbers too |
| Modular.ModPow | src/bigmath.js:6-17 | square-and-multiply computes the power modulo the modulus |
| Modular.ModInvCorrect | src/bigmath.js:25-29 | an inverse is returned exactly for units, and it is one |
| Modular.LcmCorrect | src/bigmath.js:32 | a common multiple that divides every other |
| Primes.Binomial | src/bigmath.js:78-103 | the binomial theorem, which Fermat's rests on |
| Primes.Fermat | src/bigmath.js:78-103 | a number a prime does not divide, to the power p - 1, is 1 modulo p |
| Primes.RootsOfOne | src/bigmath.js:92-97 | modulo a prime only 1 and -1 square to 1 |
| MillerRabin.SplitTwos | src/bigmath.js:85-87 | the odd part and the power of two |
| MillerRabin.Round | src/bigmath.js:93-100 | one round accepts exactly when the base leads to 1 at once or to -1 before the last squaring |
| MillerRabin.PrimeIsStrong | src/bigmath.js:90-101 | every round accepts a prime, whatever base is drawn |
| MillerRabin.SmallExact | src/bigmath.js:71-74 | the list is the primes up to 113 and no others |
| MillerRabin.PrimeIffEveryBase | src/bigmath.js:90-101 | a number above 113 is prime exactly when a round accepts it for every base that can be drawn: no composite passes them all |
| MillerRabin.IsProbablePrime | src/bigmath.js:78-103 | exact up to 113; above, no prime is rejected, however many rounds, and otherwise trial division and every round decide |
| Paillier.DecodeEncode | src/crypto.js:94-99 | decoding undoes encoding exactly on what fits in half the modulus |
| Paillier.KeyWorks | src/crypto.js:82-89 | two distinct primes whose lambda has an inverse make a key under which blinding vanishes |
| Paillier.EncryptCarries | src/crypto.js:101-115 | a ciphertext carries its plaintext, whatever unit blinds it |
| Paillier.CiphertextsDiffer | src/crypto.js:101-115 | two encryptions are the same ciphertext exactly when plaintexts and blinding units are the same modulo n: the unit hides in the ciphertext and nothing of it is lost |
| Paillier.AddCarries | src/crypto.js:125 | multiplying ciphertexts adds what they carry |
| Paillier.AddPlainCarries | src/crypto.js:126-127 | multiplying by an unblinded plaintext adds it |
| Paillier.MulCarries | src/crypto.js:128 | raising to an encoded number multiplies |
| Paillier.DecryptCarried | src/crypto.js:117-123 | decryption gives what is carried, nearest zero |
| Paillier.RoundTrip | src/crypto.js:101-123 | decryption undoes encryption for every plaintext up to (n - 1) / 2 in size |
| Paillier.Homomorphic | src/crypto.js:125-128 | sum, plain sum and product decrypt rightly whenever they fit |
| Decimals.AddExact | src/decimal.js:77-91 | addition and subtraction are exact |
| Decimals.CompareIsOrder | src/decimal.js:127-130 | comparison is the order of the values at any scales |
| Decimals.MulExact | src/decimal.js:93-97 | multiplication is exact if and only if the scales add up to at most 34 or the product is zero; otherwise it is off by that power of ten |
| Decimals.FractionMeans | src/decimal.js:108-112 | what division rounds is ten times the exact quotient in units of the last place, on both branches of the shift and for any scales |
| Decimals.DivRounds | src/decimal.js:102-114 | at a given or the default scale, fails exactly for a zero divisor or a scale above 34; otherwise within six tenths of the last place of the exact quotient; half to even if and only if nothing was cut off below a 5 that went down |
| Decimals.RescaleRounds | src/decimal.js:116-122 | the same for rounding to any smaller scale, tens and hundreds included |
| Decimals.RescaleUpExact | src/decimal.js:118 | a larger scale changes nothing |
| Decimals.GuardDigit | src/decimal.js:174-183 | what one guard digit costs |
| Decimals.NotAlwaysHalfEven | src/decimal.js:116-122 | 0.251 to one place gives 0.2 |
| DecimalText.ParseShow | src/decimal.js:37-60 | parsing undoes printing, coefficient and scale, exactly for scales of 0 to 34; above it is refused, and below 0 the scale is lost |
| Numerals.NumeralParsed | src/decimal.js:37-60 | a sign, digits, places and a power of ten, any of them left out but some digit, with white space around, are parsed as the number they are written for, and refused exactly past 34 places |
| Numerals.ParsedIsNumeral | src/decimal.js:37-60 | and nothing else is parsed |
| DecimalText.BuildExact | src/decimal.js:45-59 | parsing is exact whatever the exponent does, and fails exactly past 34 places |
| DecimalText.PaddedNumber | src/decimal.js:148-156 | padding with zeros keeps the number |
| EditDistance.DistanceIsCheapest | src/diagnostics.js:238-260 | the recurrence is the price of the cheapest script of edits, a swap of neighbours counted as one |
| EditDistance.DistanceIsApart | src/diagnostics.js:238-260 | symmetric, and zero exactly for equal spellings |
| EditDistance.RowsRise | src/diagnostics.js:250-252 | a row's least entry is at least that of the row before, though a swap reads two rows back |
| EditDistance.NextRow | src/diagnostics.js:243-255 | one row and its least entry |
| EditDistance.Compute | src/diagnostics.js:238-260 | exact up to `max`, above `max` otherwise, leaving early or not |
| EditDistance.ClosestName | src/diagnostics.js:264-274 | the first of the nearest other names, if one is near enough |
| Positions.LineStarts | src/diagnostics.js:214-218 | the starts of the lines, in order and complete |
| Positions.NewlinesCounts | src/diagnostics.js:214-218 | the line ends before a place are counted one by one |
| Positions.PositionOf | src/diagnostics.js:220-229 | one line for every line end before the place, and the column from its line's start; past the end the last line answers |
| JsonReading.JsonReader.Parse | src/json.js:61-69 | the reader with its moving place and depth computes the pure reader's answer |
| JsonReading.JsonReader.Value | src/json.js:71-85 | each kind of value |
| JsonReading.JsonReader.Object | src/json.js:98-122 | members in order, depth restored |
| JsonKeys.ObjectMeans | src/json.js:98-122 | an object's entries have distinct keys, in the order in which they first appear, and under each the value of its last member |
| JsonReading.JsonReader.Array | src/json.js:124-139 | items |
| JsonReading.JsonReader.String | src/json.js:141-155 | characters and escapes, control characters refused |
| JsonReading.JsonReader.Escape | src/json.js:157-179 | every escape, halves of surrogate pairs included |
| JsonLexis.FourMeans | src/json.js:157-179 | any unit written by its number, with hexadecimal digits in either case, is read as itself |
| JsonLexis.UnitIsItself | src/json.js:157-179 | outside the surrogates a unit is the character with that code |
| JsonLexis.FourSpells | src/json.js:157-179 | and four such digits always write one |
| JsonLexis.IntegerMeans | src/json.js:181-214 | digits alone are the signed integer they are written for, or their literal if a num does not keep it |
| JsonLexis.DecimalMeans | src/json.js:181-214 | digits and places are exactly the decimal they are written for, if there are at most 34 places |
| JsonReading.JsonReader.ReadNum | src/json.js:181-214 | whole part, fraction, exponent, and what each combination becomes |
| JsonGrammar.TreeRead | src/json.js:71-214 | the spelling of a derivation tree is read as what the tree means, to its end and no further |
| JsonGrammar.ValueDerived | src/json.js:71-214 | whatever is read as a value some derivation tree spells |
| JsonGrammar.DerivedIsRead | src/json.js:61-69 | a text the grammar derives is read as what its derivation means, or refused exactly for depth or for places past 34 |
| JsonGrammar.ReadIsDerived | src/json.js:61-69 | every accepted text has a derivation with that meaning |
| JsonGrammar.ReaderIsGrammar | src/json.js:61-214 | the texts accepted, and with which value, are exactly those derived within the two limits |
| JsonRoundTrip.StringBack | src/json.js:232-241 | a quoted string is read back |
| JsonRoundTrip.IntBack | src/json.js:255-263 | an integer is read back if a num keeps it, otherwise as its literal |
| JsonRoundTrip.DecBack | src/json.js:265-269 | a decimal is read back if it has 1 to 34 places, as an integer if it has none, and is refused otherwise |
| JsonRoundTrip.ValueBack | src/json.js:248-322 | any value is read as what its text says, or refused by depth or for a decimal inside |
| JsonRoundTrip.WrittenIsRead | src/json.js:217-322 | whatever is written, with any indent, is read as what its text says, or refused exactly for depth or for such a decimal |
| JsonRoundTrip.RoundTrip | src/json.js:217-322 | what comes back is the value itself if and only if its integers are ones a num keeps, its decimals have 1 to 34 places, and it nests at most 200 deep; the writer goes to 201 |
| Budgets.Meter.TickCall | src/interpreter.js:325-337 | the interpreter's charge |
| Budgets.Meter.TickInline | src/compile.js:593-596 | the compiler's inline comparison charges exactly the same |
| Budgets.Meter.TickDue | src/interpreter.js:291-300 | what is left when the comparison asks |
| Budgets.Meter.Open | src/interpreter.js:571-578 | the loop over outer budgets computes the tightened limit |
| Budgets.Meter.Close | src/interpreter.js:590-593 | closing leaves the outer budgets, and the comparison tuned to them |
| Budgets.LimitTightens | src/interpreter.js:571-576 | an inner limit is the least of what was asked for and what each outer budget of the kind has left: it exceeds none of them and is one of them |
| Budgets.StepLimitExact | src/interpreter.js:325-337 | outside every budget exactly as many steps complete as the limit leaves room for, whatever is caught |
| Budgets.EnoughIsUnseen | src/interpreter.js:538-594 | a budget that is large enough changes nothing: the block charges no more than what it uses |
| Budgets.ExecSafe | src/interpreter.js:538-594 | under any nesting of budgets, `attempt` and leaving by `return`, `break` or `continue`, every budget completes no more than its limit |
| Budgets.BlockStaysWithin | src/interpreter.js:566-594 | the steps or bytes completed inside a block never exceed its limit, and being stopped is an ordinary failure outside it |
| Budgets.LeavingPasses | src/interpreter.js:538-594 | leaving passes through `attempt`, and through a budget, which is closed on the way |
| Grants.Grant.ReasonUnusable | src/grants.js:41-46 | nothing is wrong exactly when nothing is wrong with any link up to the root |
| Grants.Grant.Spend | src/grants.js:50-54 | every link up to the root is spent once |
| Grants.Grant.Attenuate | src/grants.js:57-64 | the child's limits are those asked for, or this one's where they are tighter, and it lives only while this lives |
| Grants.Grant.Revoke | src/grants.js:110-120 | revoking a link kills everything below it |
| Authority.AuthorityNeverGrows | src/interpreter.js:1250-1501 | in every reachable state frames, saved frames and grants hold no more than the run was given, and nothing more was exercised |
| Authority.NeedsWereGiven | src/interpreter.js:1250-1501 | whatever any step of a run needs, the run was given, and what was checked is on record |
| Authority.BlockHolds | src/interpreter.js:647-672 | after whatever ran inside has unwound, the frame of a call, a module or a `using` block holds exactly what it was entered with: what is declared, nothing, or what was held and the capability of the grant |
| Authority.CallAttenuates | src/interpreter.js:1352-1357 | a call's body starts with exactly what the call declares, and again holds that when whatever ran inside has unwound; leaving it gives back what was held and saved |
| Authority.Unwinds | src/interpreter.js:1250-1501 | steps that leave more frames than they enter give back what the frames they left had saved |
| Authority.AtMostItsUses | src/grants.js:50-64 | a grant limited to a number of uses, whole or not, admits at most that many entries, rounded up, counted over everything derived from it; only a limit that is not a number, or infinite, sets no bound |
| Authority.AsOftenAsItsUses | src/grants.js:50-64 | and the bound is met |
| Authority.LiveExactly | src/grants.js:41-48 | a grant is live exactly while neither it nor any grant it was derived from is revoked, used up or past its time |
| Authority.ExpiredIsOver | src/grants.js:41-48 | once its time is over no block is entered with a grant or anything derived from it |
| Authority.RevokedIsOver | src/interpreter.js:647-672 | after revocation no entry is made with a grant or anything derived from it |
| Audit.Chain | src/audit.js:71-81 | the loop chains each entry onto the one before |
| Audit.BuildManifest | src/audit.js:261-283 | a record as built verifies |
| Audit.VerifyManifest | src/audit.js:286-313 | no problem is reported exactly when the record verifies |
| Audit.OneChain | src/audit.js:71-81 | one head has one chain behind it, however many events there are |
| Audit.HeadBinds | src/audit.js:286-313 | two records that verify with one head have the same events and, if either is anchored, the same fields |
| Audit.SoundExists | src/audit.js:71-81 | hashes and texts that do not collide, as the two statements above ask, exist in the model |
| Audit.UnanchoredFieldsAreFree | src/audit.js:296-301 | without a genesis the fields are not bound at all |

## Left out

- Soundness.FunctionSound: linear arithmetic on exact numbers; no parameter repeated and names in scope declared once; `if` with a block or nothing after `else`; annotated `while` whose body has no `return`, `break` or `continue` and assigns only what is declared before it; no term taken for an unknown; no two `old` expressions with one key. `limits` shows why the shapes outside are excluded. An `ensures` that reads a name unbound at the end fails at run time rather than being true or false.
- Counterexample.RefutedBreaks: for functions without loops. In a function with loops a refuted condition refutes its annotation, of which `Annotation.RefutedAnnotation` speaks for loops whose body has no loop; the promise may be kept all the same.
- Termination.FunctionEnds: on exact whole numbers, whose products and sums do not overflow.
- Promised.ProvedInInterpreter: asks that the function assign no parameter, which the interpreter refuses, hold no statement evaluated for its effect alone, and have no frame kept for it from an earlier call; that the interpreter checks contracts as it runs is not in its model.
- Dpll.IsSatisfiableExact: asks that no two different atoms print alike, as names without blanks ensure (`Dpll.PlainUnambiguous`); `Dpll.CollisionUnsound` shows that the condition is needed.
- VcGen.Fresh: one number per scope serves all its fresh symbols, where the source counts per name; the symbols differ all the same. An unknown is named after its text with a question mark in front, where the source numbers it.
- Literals of the verified language are exact rationals: reading a double or a decimal literal (src/logic.js:40-79) is not modelled, nor is the counterexample text.
- Symbolic states carry their environments as values; the source clones the environment where states fork (src/verify.js:301-308) and updates it in place in between, which no other state can see.
- Paths.Walk: patterns start at the tree the parser builds; parsing a pattern from text (src/regex.js:38-233) is not modelled.
- RegexEngine.Regex.Exec: a subject is a sequence of codes without surrogates, as the position advances by one.
- Compiled.Engine.Run: asks that no function repeat a parameter; `Misled.RepeatedProgram` and `Caches.RepeatsMislead` show why. Numbers, booleans, nil, closures and lists from `range`; no strings, maps, tensors, records, taint, labels, agents, contracts, debugging, profiling or `old`. Arithmetic is over the reals, without rounding, infinities or NaN; `**` and `%` are not included. A name that is not found also makes maps of the scopes it was looked for in, for the suggestion in the message (src/interpreter.js:744-750); the program ends there.
- Compiled.Engine.CallFunction: a call site remembers its callee (src/compile.js:548-565) and goes on keeping frames for it after the declaration has been called over two scopes (src/interpreter.js:1175-1186), where the tree-walker makes new ones; in the model both make new ones.
- Compiled.Engine.Listed: the loop's scope is made after its subject is evaluated, as in the tree-walker; the compiling engine makes it before, where nothing can see it.
- Compiled.Engine.RunWhile: loop contracts are excluded: after `continue` one engine rechecks the invariant and the other does not.
- The positional variant of taking a frame back (src/env.js:240-261) and the single-slot write (src/env.js:268-270) repeat the array variant.
- MillerRabin.IsProbablePrime: the draws of each round are a parameter; how likely a composite is to pass is not stated.
- Generating primes and keys, and drawing the blinding unit, are parameters; zero-knowledge proofs, commitments and signatures are not modelled.
- Decimals: conversion to and from doubles is not modelled.
- JsonRoundTrip.RoundTrip: texts and strings are sequences of 16-bit units, half of a surrogate pair standing as one character from 0x10000 on, where a unit has no place. A number that is not kept exactly is carried as its literal, and writing one is not covered; records, tainted values and values that contain themselves are not modelled; negative zero is not an integer of the model.
- Budgets.ExecSafe: programs are reduced to what budgets see: steps, allocations, failures, leaving, sequence, budgets and `attempt`; an amount is a real number, not infinite nor a NaN.
- Authority.AuthorityNeverGrows: runs are sequences of calls, builtins, modules, `using` blocks, unwinding and operations on grants; principals and labels are not modelled. A block already entered keeps its capability when the grant is revoked, as in the source.
- Audit.HeadBinds: the hash and the text of objects are parameters, assumed not to collide; signatures and the content of the summary sections are not modelled.
- The lexer, the statement parser, the formatter, the bundler, network, files, foreign functions, tensors, quantum and neural parts, labels, clocks, the ledger and the language server.
