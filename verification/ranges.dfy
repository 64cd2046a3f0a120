/** What `range` counts: from the start, by the step, as long as it stays short of the stop. */
module Ranges {
  import opened Lang
  import opened Walker

  /** Strictly before the stop, in the direction of the step. */
  predicate Before(v: real, stop: real, step: real) {
    if step > 0.0 then v < stop else stop < v
  }

  /** The k-th item is the start and k steps, and there is one exactly while that is before the stop. */
  ghost predicate CountsAt(items: seq<Value>, start: real, stop: real, step: real, k: nat) {
    && (k < |items| <==> Before(start + k as real * step, stop, step))
    && (k < |items| ==> items[k] == Num(start + k as real * step))
  }

  ghost predicate Counts(items: seq<Value>, start: real, stop: real, step: real) {
    forall k: nat :: CountsAt(items, start, stop, step, k)
  }

  lemma {:induction false} ItemAt(start: real, stop: real, step: real, k: nat)
    requires step != 0.0
    ensures CountsAt(RangeItems(start, stop, step), start, stop, step, k)
    decreases k
  {
    Steps(start, step, k);
    if Goes(start, stop, step) {
      RemainingShrinks(start, stop, step);
      if k > 0 { ItemAt(start + step, stop, step, k - 1); }
    } else {
      Onwards(start, stop, step, k as real);
    }
  }

  lemma Steps(start: real, step: real, k: nat)
    ensures k > 0 ==> start + k as real * step == (start + step) + (k - 1) as real * step
    ensures k == 0 ==> start + k as real * step == start
  {
  }

  /** Past the stop there is no way back. */
  lemma Onwards(start: real, stop: real, step: real, k: real)
    requires k >= 0.0 && step != 0.0 && !Before(start, stop, step)
    ensures !Before(start + k * step, stop, step)
  {
    if step > 0.0 { assert k * step >= 0.0; } else { assert k * step <= 0.0; }
  }

  lemma RangeCounts(start: real, stop: real, step: real)
    requires step != 0.0
    ensures Counts(RangeItems(start, stop, step), start, stop, step)
  {
    hide CountsAt, RangeItems;
    forall k: nat ensures CountsAt(RangeItems(start, stop, step), start, stop, step, k) { ItemAt(start, stop, step, k); }
  }

  ghost predicate Lists(o: Outcome, start: real, stop: real, step: real) {
    o.Done? && o.value.List? && Counts(o.value.items, start, stop, step)
  }

  /** A call of `range`: up to one number from zero, from the first number to the second by ones, or by the third.
      Anything but one to three numbers, and a step of zero, is refused at the line of the call. */
  lemma RangeCall(args: seq<Value>, line: nat, st: State)
    ensures var r := Builtin(RangeFn, args, line, st);
      && r.st == st
      && (!(1 <= |args| <= 3) ==> r.o == Failed(Error(ArityError, Some(line))))
      && (1 <= |args| <= 3 && (exists a :: a in args && !a.Num?) ==> r.o == Failed(Error(RangeArgument, Some(line))))
      && (forall b :: args == [Num(b)] ==> Lists(r.o, 0.0, b, 1.0))
      && (forall a, b :: args == [Num(a), Num(b)] ==> Lists(r.o, a, b, 1.0))
      && forall a, b, s :: args == [Num(a), Num(b), Num(s)] ==>
           if s == 0.0 then r.o == Failed(Error(RangeStep, Some(line))) else Lists(r.o, a, b, s)
  {
    hide RangeItems, Counts;
    if 1 <= |args| <= 3 {
      var b := RangeBounds(args, line);
      if b.Bounds? { RangeCounts(b.start, b.stop, b.step); }
    }
  }
}
