/** The distance between two spellings, counting a swap of neighbours as one edit: the recurrence, what it
    means in terms of edits, and the computation over three rolling rows that may stop early. */
module EditDistance {
  datatype Option<T> = None | Some(value: T)

  function Min(a: nat, b: nat): nat {
    if a <= b then a else b
  }

  // ---- the recurrence ------------------------------------------------------------------------------------

  function Cost(a: string, b: string, i: nat, j: nat): nat
    requires 0 < i <= |a| && 0 < j <= |b|
  {
    if a[i - 1] == b[j - 1] then 0 else 1
  }

  predicate Swapped(a: string, b: string, i: nat, j: nat)
    requires i <= |a| && j <= |b|
  {
    i > 1 && j > 1 && a[i - 1] == b[j - 2] && a[i - 2] == b[j - 1]
  }

  /** The cheapest of the four ways to end, given the distances they start from. */
  function Best(a: string, b: string, i: nat, j: nat, up: nat, left: nat, diagonal: nat, two: nat): nat
    requires 0 < i <= |a| && 0 < j <= |b|
  {
    var d := Min(Min(up + 1, left + 1), diagonal + Cost(a, b, i, j));
    if Swapped(a, b, i, j) then Min(d, two + 1) else d
  }

  /** The distance between the first i characters of a and the first j of b. */
  function D(a: string, b: string, i: nat, j: nat): nat
    requires i <= |a| && j <= |b|
    decreases i + j
  {
    if i == 0 then j
    else if j == 0 then i
    else
      Best(a, b, i, j, D(a, b, i - 1, j), D(a, b, i, j - 1), D(a, b, i - 1, j - 1),
           if i > 1 && j > 1 then D(a, b, i - 2, j - 2) else 0)
  }

  lemma Edges(a: string, b: string, i: nat, j: nat)
    requires i <= |a| && j <= |b|
    ensures D(a, b, 0, j) == j && D(a, b, i, 0) == i
  {
  }

  lemma Inside(a: string, b: string, i: nat, j: nat)
    requires 0 < i <= |a| && 0 < j <= |b|
    ensures var d := Min(Min(D(a, b, i - 1, j) + 1, D(a, b, i, j - 1) + 1), D(a, b, i - 1, j - 1) + Cost(a, b, i, j));
      D(a, b, i, j) == if Swapped(a, b, i, j) then Min(d, D(a, b, i - 2, j - 2) + 1) else d
  {
    hide D, Min, Cost;
    Unfold(a, b, i, j);
  }

  lemma Unfold(a: string, b: string, i: nat, j: nat)
    requires 0 < i <= |a| && 0 < j <= |b|
    ensures D(a, b, i, j) == Best(a, b, i, j, D(a, b, i - 1, j), D(a, b, i, j - 1), D(a, b, i - 1, j - 1),
                                  if i > 1 && j > 1 then D(a, b, i - 2, j - 2) else 0)
  {
    hide Best;
  }

  function Distance(a: string, b: string): nat {
    D(a, b, |a|, |b|)
  }

  // ---- what it means ----------------------------------------------------------------------------------------

  /** One edit of the end of a spelling into the end of another; no character is edited twice. */
  datatype Edit = Keep | Replace | Delete | Insert | Swap

  function Charge(e: Edit): nat {
    if e.Keep? then 0 else 1
  }

  function Price(script: seq<Edit>): nat {
    if script == [] then 0 else Price(script[..|script| - 1]) + Charge(script[|script| - 1])
  }

  /** The script turns the first i characters of a into the first j of b. */
  ghost predicate Edits(script: seq<Edit>, a: string, b: string, i: nat, j: nat)
    requires i <= |a| && j <= |b|
    decreases |script|
  {
    if script == [] then i == 0 && j == 0 else
      var rest := script[..|script| - 1];
      match script[|script| - 1]
      case Keep => i > 0 && j > 0 && a[i - 1] == b[j - 1] && Edits(rest, a, b, i - 1, j - 1)
      case Replace => i > 0 && j > 0 && Edits(rest, a, b, i - 1, j - 1)
      case Delete => i > 0 && Edits(rest, a, b, i - 1, j)
      case Insert => j > 0 && Edits(rest, a, b, i, j - 1)
      case Swap => Swapped(a, b, i, j) && Edits(rest, a, b, i - 2, j - 2)
  }

  /** No script is cheaper than the distance. */
  lemma {:induction false} NoCheaper(script: seq<Edit>, a: string, b: string, i: nat, j: nat)
    requires i <= |a| && j <= |b| && Edits(script, a, b, i, j)
    ensures D(a, b, i, j) <= Price(script)
    decreases |script|
  {
    if script == [] {
      Edges(a, b, 0, 0);
    } else {
      hide D, Swapped, Price;
      PriceLast(script);
      Neighbours(a, b, i, j);
      if i > 0 && j > 0 { Diagonals(a, b, i, j); }
      var rest := script[..|script| - 1];
      match script[|script| - 1]
      case Keep => NoCheaper(rest, a, b, i - 1, j - 1);
      case Replace => NoCheaper(rest, a, b, i - 1, j - 1);
      case Delete => NoCheaper(rest, a, b, i - 1, j);
      case Insert => NoCheaper(rest, a, b, i, j - 1); 
      case Swap => NoCheaper(rest, a, b, i - 2, j - 2);
    }
  }

  lemma PriceLast(script: seq<Edit>)
    requires script != []
    ensures Price(script) == Price(script[..|script| - 1]) + Charge(script[|script| - 1])
  {
  }

  lemma Neighbours(a: string, b: string, i: nat, j: nat)
    requires i <= |a| && j <= |b|
    ensures i > 0 ==> D(a, b, i, j) <= D(a, b, i - 1, j) + 1
    ensures j > 0 ==> D(a, b, i, j) <= D(a, b, i, j - 1) + 1
  {
    hide D;
    if i == 0 {
      Edges(a, b, 0, j);
      if j > 0 { Edges(a, b, 0, j - 1); }
    } else if j == 0 {
      Edges(a, b, i, 0);
      Edges(a, b, i - 1, 0);
    } else {
      Inside(a, b, i, j);
    }
  }

  lemma Diagonals(a: string, b: string, i: nat, j: nat)
    requires 0 < i <= |a| && 0 < j <= |b|
    ensures D(a, b, i, j) <= D(a, b, i - 1, j - 1) + 1
    ensures a[i - 1] == b[j - 1] ==> D(a, b, i, j) <= D(a, b, i - 1, j - 1)
    ensures Swapped(a, b, i, j) ==> D(a, b, i, j) <= D(a, b, i - 2, j - 2) + 1
  {
    hide D;
    Inside(a, b, i, j);
  }

  lemma Extend(script: seq<Edit>, e: Edit)
    ensures (script + [e])[..|script|] == script && (script + [e])[|script|] == e
    ensures Price(script + [e]) == Price(script) + Charge(e)
  {
    assert (script + [e])[..|script|] == script;
  }

  /** And some script costs exactly the distance. */
  lemma {:induction false} Cheapest(a: string, b: string, i: nat, j: nat) returns (script: seq<Edit>)
    requires i <= |a| && j <= |b|
    ensures Edits(script, a, b, i, j) && Price(script) == D(a, b, i, j)
    decreases i + j
  {
    hide D;
    if i == 0 || j == 0 { Edges(a, b, i, j); } else { Inside(a, b, i, j); }
    if i > 0 { Edges(a, b, i - 1, 0); }
    if j > 0 { Edges(a, b, 0, j - 1); }
    var rest, e;
    if i == 0 && j == 0 {
      return [];
    } else if i == 0 {
      rest := Cheapest(a, b, i, j - 1);
      e := Insert;
    } else if j == 0 {
      rest := Cheapest(a, b, i - 1, j);
      e := Delete;
    } else if D(a, b, i, j) == D(a, b, i - 1, j) + 1 {
      rest := Cheapest(a, b, i - 1, j);
      e := Delete;
    } else if D(a, b, i, j) == D(a, b, i, j - 1) + 1 {
      rest := Cheapest(a, b, i, j - 1);
      e := Insert;
    } else if D(a, b, i, j) == D(a, b, i - 1, j - 1) + Cost(a, b, i, j) {
      rest := Cheapest(a, b, i - 1, j - 1);
      e := if Cost(a, b, i, j) == 0 then Keep else Replace;
    } else {
      rest := Cheapest(a, b, i - 2, j - 2);
      e := Swap;
    }
    Extend(rest, e);
    script := rest + [e];
  }

  /** The distance is the price of the cheapest script. */
  lemma DistanceIsCheapest(a: string, b: string)
    ensures exists script :: Edits(script, a, b, |a|, |b|) && Price(script) == Distance(a, b)
    ensures forall script :: Edits(script, a, b, |a|, |b|) ==> Distance(a, b) <= Price(script)
  {
    var script := Cheapest(a, b, |a|, |b|);
    forall script | Edits(script, a, b, |a|, |b|) ensures Distance(a, b) <= Price(script) {
      NoCheaper(script, a, b, |a|, |b|);
    }
  }

  lemma {:induction false} Symmetric(a: string, b: string, i: nat, j: nat)
    requires i <= |a| && j <= |b|
    ensures D(a, b, i, j) == D(b, a, j, i)
    decreases i + j
  {
    hide D;
    if i == 0 || j == 0 {
      Edges(a, b, i, j);
      Edges(b, a, j, i);
    } else {
      Inside(a, b, i, j);
      Inside(b, a, j, i);
      Symmetric(a, b, i - 1, j);
      Symmetric(a, b, i, j - 1);
      Symmetric(a, b, i - 1, j - 1);
      if i > 1 && j > 1 { Symmetric(a, b, i - 2, j - 2); }
    }
  }

  /** Only equal spellings are at no distance. */
  lemma {:induction false} ZeroMeansEqual(a: string, b: string, i: nat, j: nat)
    requires i <= |a| && j <= |b|
    ensures D(a, b, i, j) == 0 <==> a[..i] == b[..j]
    decreases i + j
  {
    hide D;
    if i == 0 || j == 0 {
      Edges(a, b, i, j);
    } else {
      Inside(a, b, i, j);
      ZeroMeansEqual(a, b, i - 1, j - 1);
      assert a[..i] == a[..i - 1] + [a[i - 1]] && b[..j] == b[..j - 1] + [b[j - 1]];
    }
  }

  lemma DistanceIsApart(a: string, b: string)
    ensures Distance(a, b) == 0 <==> a == b
    ensures Distance(a, b) == Distance(b, a)
  {
    ZeroMeansEqual(a, b, |a|, |b|);
    Symmetric(a, b, |a|, |b|);
    assert a[..|a|] == a && b[..|b|] == b;
  }

  // ---- why stopping early is right ----------------------------------------------------------------------------

  /** Nothing in the row is below `low`. */
  ghost predicate RowAbove(a: string, b: string, i: nat, low: nat)
    requires i <= |a|
  {
    forall j: nat :: j <= |b| ==> low <= D(a, b, i, j)
  }

  /** A row's least entry is no smaller than that of the row before: a swap reads two rows back, but what it
      finds there is at least what the row between has one place on, less one. */
  lemma {:induction false} RowsRise(a: string, b: string, i: nat, low: nat, j: nat)
    requires i < |a| && RowAbove(a, b, i, low) && j <= |b|
    ensures low <= D(a, b, i + 1, j)
    decreases j
  {
    hide D;
    if j == 0 {
      assert low <= D(a, b, i, 0);
      Edges(a, b, i, 0);
      Edges(a, b, i + 1, 0);
    } else {
      RowsRise(a, b, i, low, j - 1);
      Inside(a, b, i + 1, j);
      assert low <= D(a, b, i, j) && low <= D(a, b, i, j - 1);
      if Swapped(a, b, i + 1, j) {
        Inside(a, b, i, j - 1);
      }
    }
  }

  lemma {:induction false} LowRowStays(a: string, b: string, i: nat, low: nat, k: nat)
    requires i <= k <= |a| && RowAbove(a, b, i, low)
    ensures RowAbove(a, b, k, low)
    decreases k - i
  {
    if i < k {
      var next := i + 1;
      forall j: nat | j <= |b| ensures low <= D(a, b, next, j) { RowsRise(a, b, i, low, j); }
      LowRowStays(a, b, i + 1, low, k);
    }
  }

  /** Lengths alone bound the distance from below. */
  lemma {:induction false} LengthsApart(a: string, b: string, i: nat, j: nat)
    requires i <= |a| && j <= |b|
    ensures i - j <= D(a, b, i, j) && j - i <= D(a, b, i, j)
    decreases i + j
  {
    hide D;
    if i == 0 || j == 0 {
      Edges(a, b, i, j);
    } else {
      Inside(a, b, i, j);
      LengthsApart(a, b, i - 1, j);
      LengthsApart(a, b, i, j - 1);
      LengthsApart(a, b, i - 1, j - 1);
      if i > 1 && j > 1 { LengthsApart(a, b, i - 2, j - 2); }
    }
  }

  // ---- the computation ------------------------------------------------------------------------------------------

  ghost predicate IsRow(row: array<nat>, a: string, b: string, i: nat)
    reads row
    requires i <= |a|
  {
    row.Length == |b| + 1 && forall j: nat :: j <= |b| ==> row[j] == D(a, b, i, j)
  }

  /** Exact as far as `max`, and past it only known to be past it. */
  method Compute(a: string, b: string, max: nat) returns (r: nat)
    ensures if Distance(a, b) <= max then r == Distance(a, b) else r > max
  {
    LengthsApart(a, b, |a|, |b|);
    if |a| - |b| > max || |b| - |a| > max { return max + 1; }
    var twoBack := new nat[0];
    var prev := new nat[|b| + 1](j => j);
    for i := 1 to |a| + 1
      invariant IsRow(prev, a, b, i - 1)
      invariant i > 1 ==> IsRow(twoBack, a, b, i - 2)
    {
      var row, best := NextRow(a, b, i, twoBack, prev);
      if best > max {
        LowRowStays(a, b, i, best, |a|);
        return max + 1;
      }
      twoBack := prev;
      prev := row;
    }
    r := prev[|b|];
  }

  /** Row i from the two before it, and the least entry in it. */
  method NextRow(a: string, b: string, i: nat, twoBack: array<nat>, prev: array<nat>) returns (row: array<nat>, best: nat)
    requires 0 < i <= |a| && IsRow(prev, a, b, i - 1) && (i > 1 ==> IsRow(twoBack, a, b, i - 2))
    ensures fresh(row) && IsRow(row, a, b, i)
    ensures RowAbove(a, b, i, best) && exists j: nat :: j <= |b| && best == D(a, b, i, j)
  {
    hide D;
    row := new nat[|b| + 1];
    row[0] := i;
    best := i;
    Edges(a, b, i, 0);
    for j := 1 to |b| + 1
      invariant forall k: nat :: k < j ==> row[k] == D(a, b, i, k)
      invariant forall k: nat :: k < j ==> best <= D(a, b, i, k)
      invariant exists k: nat :: k < j && best == D(a, b, i, k)
    {
      var cost := if a[i - 1] == b[j - 1] then 0 else 1;
      var d := Min(Min(prev[j] + 1, row[j - 1] + 1), prev[j - 1] + cost);
      if i > 1 && j > 1 && a[i - 1] == b[j - 2] && a[i - 2] == b[j - 1] {
        d := Min(d, twoBack[j - 2] + 1);
      }
      Inside(a, b, i, j);
      row[j] := d;
      best := Min(best, d);
    }
  }

  // ---- suggestions -------------------------------------------------------------------------------------------------

  function Tolerance(name: string): nat {
    if |name| <= 3 then 1 else if |name| <= 6 then 2 else 3
  }

  /** The nearest of the other names, if one is near enough; of equally near ones, the first. */
  method ClosestName(name: string, candidates: seq<string>) returns (best: Option<string>)
    ensures best.None? ==> forall c :: c in candidates && c != name ==> Distance(name, c) > Tolerance(name)
    ensures best.Some? ==> exists k ::
      && 0 <= k < |candidates| && candidates[k] == best.value && best.value != name
      && Distance(name, best.value) <= Tolerance(name)
      && (forall c :: c in candidates && c != name ==> Distance(name, best.value) <= Distance(name, c))
      && forall i :: 0 <= i < k && candidates[i] != name ==> Distance(name, best.value) < Distance(name, candidates[i])
  {
    hide Distance;
    var max := Tolerance(name);
    best := None;
    var bestScore := max + 1;
    ghost var at := 0;
    for k := 0 to |candidates|
      invariant best.None? ==> bestScore == max + 1
      invariant best.Some? ==> at < k && candidates[at] == best.value != name && bestScore == Distance(name, best.value) <= max
      invariant forall i :: 0 <= i < k && candidates[i] != name ==> bestScore <= Distance(name, candidates[i])
      invariant best.Some? ==> forall i :: 0 <= i < at && candidates[i] != name ==> bestScore < Distance(name, candidates[i])
    {
      var candidate := candidates[k];
      if candidate != name {
        var d := Compute(name, candidate, max);
        if d < bestScore {
          bestScore, best := d, Some(candidate);
          at := k;
        }
      }
    }
    if bestScore > max { best := None; }
  }
}
