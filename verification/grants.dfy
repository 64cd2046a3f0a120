/** Capabilities lent as values: a grant is live only while every link above it is, and spends every link
    above it when it is used. */
module Grants {
  datatype Option<T> = None | Some(value: T)

  /** What a number of the language can be. */
  datatype Number = Real(value: real) | Infinity | MinusInfinity | NaN

  function Minimum(a: Number, b: Number): Number {
    if a.NaN? || b.NaN? then NaN
    else if a.MinusInfinity? || b.Infinity? then a
    else if b.MinusInfinity? || a.Infinity? then b
    else if a.value <= b.value then a else b
  }

  /** Neither is a NaN, and the first is no more than the second. */
  ghost predicate NoMore(a: Number, b: Number) {
    match a
    case MinusInfinity => !b.NaN?
    case Real(x) => b.Infinity? || (b.Real? && x <= b.value)
    case Infinity => b.Infinity?
    case NaN => false
  }

  lemma MinimumLeast(a: Number, b: Number)
    requires !a.NaN? && !b.NaN?
    ensures NoMore(Minimum(a, b), a) && NoMore(Minimum(a, b), b) && (Minimum(a, b) == a || Minimum(a, b) == b)
  {
  }

  /** What a limit is narrowed to: what was asked for, or what the link above has if that is less. A NaN on
      either side gives a NaN, which limits nothing; the link above goes on limiting. */
  ghost predicate Narrowed(limit: Number, asked: Number, above: Option<Number>) {
    if above.None? then limit == asked
    else if asked.NaN? || above.value.NaN? then limit.NaN?
    else NoMore(limit, asked) && NoMore(limit, above.value) && (limit == asked || limit == above.value)
  }

  /** `n <= 0`. */
  predicate NotPositive(n: Number) {
    n.MinusInfinity? || (n.Real? && n.value <= 0.0)
  }

  /** `now > n`. */
  predicate Past(now: int, n: Number) {
    n.MinusInfinity? || (n.Real? && now as real > n.value)
  }

  /** The uses of a grant narrowed to `asked`: no limit unless one is asked for, and then the tighter. */
  function NarrowUses(asked: Option<Number>, left: Option<Number>): Option<Number> {
    if asked.None? then None else Some(if left.None? then asked.value else Minimum(asked.value, left.value))
  }

  function NarrowUntil(asked: Option<Number>, until: Option<Number>): Option<Number> {
    if asked.None? then until else Some(if until.None? then asked.value else Minimum(asked.value, until.value))
  }

  datatype Reason = Usable | Revoked | Spent | Expired

  /** What is wrong with one link by itself. */
  function OwnReason(revoked: bool, usesLeft: Option<Number>, until: Option<Number>, now: int): Reason {
    if revoked then Revoked
    else if usesLeft.Some? && NotPositive(usesLeft.value) then Spent
    else if until.Some? && Past(now, until.value) then Expired
    else Usable
  }

  function Decreased(n: Number): Number {
    if n.Real? then Real(n.value - 1.0) else n
  }

  function OneLess(uses: Option<Number>): Option<Number> {
    if uses.None? then None else Some(Decreased(uses.value))
  }

  class Grant {
    const capability: string
    const parent: Grant?
    const until: Option<Number>
    var usesLeft: Option<Number>
    var revoked: bool
    var spent: nat
    /** The links above this one, nearest first. */
    ghost const above: seq<Grant>

    ghost predicate Linked() {
      && (parent == null <==> above == []) && (parent != null ==> above[0] == parent)
      && forall i :: 0 <= i < |above| ==> above[i].Upward(above[i + 1..])
    }

    ghost predicate Upward(rest: seq<Grant>) {
      above == rest && (parent == null <==> rest == []) && (parent != null ==> rest[0] == parent)
    }

    constructor (capability: string, parent: Grant?, uses: Option<Number>, until: Option<Number>)
      requires parent != null ==> parent.Linked()
      ensures Linked() && above == (if parent == null then [] else [parent] + parent.above)
      ensures this.capability == capability && this.parent == parent && this.until == until
      ensures usesLeft == uses && !revoked && spent == 0
      ensures fresh(this)
    {
      this.capability, this.parent, usesLeft, this.until := capability, parent, uses, until;
      revoked, spent := false, 0;
      above := if parent == null then [] else [parent] + parent.above;
    }

    /** No link stands above itself. */
    lemma NotAboveItself()
      requires Linked()
      ensures this !in above
      ensures parent != null ==> parent.Linked() && above == [parent] + parent.above
    {
      forall i | 0 <= i < |above| ensures above[i] != this {
        assert above[i].Upward(above[i + 1..]);
      }
      if parent != null {
        assert above[0].Upward(above[1..]);
        forall i | 0 <= i < |parent.above| ensures parent.above[i].Upward(parent.above[i + 1..]) {
          assert above[i + 1].Upward(above[i + 2..]) && above[i + 2..] == parent.above[i + 1..];
        }
      }
    }

    function Own(now: int): Reason
      reads this
    {
      OwnReason(revoked, usesLeft, until, now)
    }

    ghost predicate Live(now: int)
      reads this, above
    {
      Own(now).Usable? && forall g :: g in above ==> g.Own(now).Usable?
    }

    /** Nothing is wrong exactly when nothing is wrong with any link up to the root. */
    method ReasonUnusable(now: int) returns (why: Reason)
      requires Linked()
      ensures why.Usable? <==> Live(now)
      ensures !Own(now).Usable? ==> why == Own(now)
      decreases |above|
    {
      NotAboveItself();
      why := Own(now);
      if why.Usable? && parent != null {
        why := parent.ReasonUnusable(now);
      }
    }

    /** A use is spent by this link and by every one above it, once each. */
    method Spend()
      requires Linked()
      modifies this, above
      ensures forall g :: g in [this] + above ==>
        g.usesLeft == OneLess(old(g.usesLeft)) && g.spent == old(g.spent) + 1 && g.revoked == old(g.revoked)
      decreases |above|
    {
      NotAboveItself();
      usesLeft := OneLess(usesLeft);
      spent := spent + 1;
      if parent != null { parent.Spend(); }
    }

    /** A narrower grant of the same capability, hanging off this one. */
    method Attenuate(uses: Option<Number>, until': Option<Number>) returns (child: Grant)
      requires Linked()
      ensures fresh(child) && child.Linked() && child.parent == this && child.above == [this] + above
      ensures child.capability == capability && !child.revoked && child.spent == 0
      ensures child.usesLeft == NarrowUses(uses, usesLeft) && child.until == NarrowUntil(until', until)
      ensures if uses.None? then child.usesLeft.None? else child.usesLeft.Some? && Narrowed(child.usesLeft.value, uses.value, usesLeft)
      ensures if until'.None? then child.until == until else child.until.Some? && Narrowed(child.until.value, until'.value, until)
      ensures forall now :: child.Live(now) ==> Live(now)
    {
      if uses.Some? && usesLeft.Some? && !uses.value.NaN? && !usesLeft.value.NaN? { MinimumLeast(uses.value, usesLeft.value); }
      if until'.Some? && until.Some? && !until'.value.NaN? && !until.value.NaN? { MinimumLeast(until'.value, until.value); }
      child := new Grant(capability, this, NarrowUses(uses, usesLeft), NarrowUntil(until', until));
      forall now | child.Live(now) ensures Live(now) {
        assert this in child.above;
        forall g | g in above ensures g.Own(now).Usable? { assert g in child.above; }
      }
    }

    /** Revoking any link kills everything below it. */
    method Revoke() returns (first: bool)
      modifies this`revoked
      ensures revoked && first == !old(revoked)
      ensures forall g: Grant, now :: g == this || this in g.above ==> !g.Live(now)
    {
      first := !revoked;
      revoked := true;
    }
  }
}
