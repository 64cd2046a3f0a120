/** Lines and columns of a place in a text, found by binary search among the starts of its lines. */
module Positions {
  datatype Position = Position(line: nat, column: int, lineStart: nat)

  function Newlines(s: string): nat {
    if s == "" then 0 else Newlines(s[..|s| - 1]) + if s[|s| - 1] == '\n' then 1 else 0
  }

  /** In order: the places that start a line, each knowing how many line ends come before it. */
  ghost predicate Starts(source: string, upTo: nat, starts: seq<nat>)
    requires upTo <= |source|
  {
    && starts != [] && starts[0] == 0
    && (forall k :: 0 <= k < |starts| ==> starts[k] <= upTo && Newlines(source[..starts[k]]) == k)
    && (forall k :: 0 < k < |starts| ==> starts[k] > 0 && source[starts[k] - 1] == '\n')
    && (forall k :: 0 < k < |starts| ==> starts[k - 1] < starts[k])
    && Newlines(source[..upTo]) == |starts| - 1
    && (forall i :: starts[|starts| - 1] <= i < upTo ==> source[i] != '\n')
    && (forall k, i :: 0 <= k < |starts| - 1 && starts[k] <= i < starts[k + 1] - 1 ==> source[i] != '\n')
  }

  method LineStarts(source: string) returns (starts: seq<nat>)
    ensures Starts(source, |source|, starts)
  {
    starts := [0];
    assert source[..0] == "";
    for i := 0 to |source|
      invariant Starts(source, i, starts)
    {
      hide Starts;
      OneFurther(source, i, starts);
      if source[i] == '\n' { starts := starts + [i + 1]; }
    }
  }

  lemma OneFurther(source: string, i: nat, starts: seq<nat>)
    requires i < |source| && Starts(source, i, starts)
    ensures Starts(source, i + 1, if source[i] == '\n' then starts + [i + 1] else starts)
  {
    NextCount(source, i);
    hide Newlines;
    if source[i] == '\n' { NewStart(source, i, starts); }
  }

  lemma NextCount(source: string, i: nat)
    requires i < |source|
    ensures Newlines(source[..i + 1]) == Newlines(source[..i]) + if source[i] == '\n' then 1 else 0
  {
    assert source[..i + 1][..i] == source[..i];
  }

  lemma NewStart(source: string, i: nat, starts: seq<nat>)
    requires i < |source| && source[i] == '\n' && Starts(source, i, starts)
    requires Newlines(source[..i + 1]) == Newlines(source[..i]) + 1
    ensures Starts(source, i + 1, starts + [i + 1])
  {
    hide Newlines;
    var more := starts + [i + 1];
    var n := |starts|;
    assert more[n] == i + 1 && forall k :: 0 <= k < n ==> more[k] == starts[k];
    forall k, j | 0 <= k < n && more[k] <= j < more[k + 1] - 1 ensures source[j] != '\n' {
      if k + 1 < n { assert starts[k + 1] == more[k + 1]; }
    }
  }

  lemma NoneBefore(s: string)
    ensures Newlines(s[..0]) == 0 && s[..|s|] == s
  {
  }

  ghost function LineEnds(s: string): set<nat> {
    set i: nat | i < |s| && s[i] == '\n'
  }

  /** Newlines counts the places that hold a line end. */
  lemma {:induction false} NewlinesCounts(s: string)
    ensures Newlines(s) == |LineEnds(s)|
    decreases |s|
  {
    if s == "" {
      assert LineEnds(s) == {};
    } else {
      var n: nat := |s| - 1;
      var rest := s[..n];
      NewlinesCounts(rest);
      assert LineEnds(s) == if s[n] == '\n' then LineEnds(rest) + {n} else LineEnds(rest);
    }
  }

  /** The nearest place within the text. */
  function Inside(source: string, offset: int): nat {
    if offset < 0 then 0 else if offset > |source| then |source| else offset
  }

  /** One line end for every line before it; the line starts at the text's start or after a line end, and no line
      end lies between that and the place. Past the end it is the last line that answers, before the start the
      first. */
  method PositionOf(source: string, offset: int) returns (p: Position)
    ensures var at := Inside(source, offset);
      && p.lineStart <= at && p.column == offset - p.lineStart + 1
      && p.line == 1 + Newlines(source[..at])
      && (p.lineStart == 0 || source[p.lineStart - 1] == '\n')
      && forall i :: p.lineStart <= i < at ==> source[i] != '\n'
    ensures offset <= 0 ==> p.line == 1 && p.lineStart == 0
    ensures offset >= |source| ==> p.line == 1 + Newlines(source)
  {
    NoneBefore(source);
    hide Newlines;
    var starts := LineStarts(source);
    ghost var at := Inside(source, offset);
    var lo, hi := 0, |starts| - 1;
    while lo < hi
      invariant 0 <= lo <= hi < |starts| && starts[lo] <= at
      invariant hi + 1 < |starts| ==> starts[hi + 1] > at
      decreases hi - lo
    {
      var mid := (lo + hi + 1) / 2;
      if starts[mid] <= offset { lo := mid; } else { hi := mid - 1; }
    }
    p := Position(lo + 1, offset - starts[lo] + 1, starts[lo]);
    NoneBetween(source, starts[lo], at);
  }

  lemma {:induction false} NoneBetween(s: string, a: nat, b: nat)
    requires a <= b <= |s| && forall i :: a <= i < b ==> s[i] != '\n'
    ensures Newlines(s[..b]) == Newlines(s[..a])
    decreases b
  {
    if a < b {
      NoneBetween(s, a, b - 1);
      assert s[..b][..b - 1] == s[..b - 1];
    }
  }
}
