/** Ignoring case: what a pattern matches does not depend on the case of any letter of the subject, and nothing but
    the two cases of one letter is confounded. */
module Caseless {
  import opened Patterns
  import opened Searching

  /** The two cases of one of the 26 letters. */
  ghost predicate OtherCase(a: int, b: int) {
    exists k :: 0 <= k < 26 && Cases(a, b, k)
  }

  ghost predicate Cases(a: int, b: int, k: int) {
    (a == 'A' as int + k && b == 'a' as int + k) || (a == 'a' as int + k && b == 'A' as int + k)
  }

  lemma FoldIsOther(a: int, b: int)
    ensures OtherCase(a, b) <==> a != b && FoldCase(a) == b
  {
    if FoldCase(a) == b && a != b {
      assert Cases(a, b, if a <= 90 then a - 65 else a - 97);
    }
  }

  /** The same text but for the case of letters. */
  ghost predicate SameLetters(s: Input, s': Input) {
    && |s.codes| == |s'.codes|
    && forall i :: 0 <= i < |s.codes| ==> s.codes[i] == s'.codes[i] || OtherCase(s.codes[i], s'.codes[i])
  }

  lemma SameHits(chars: CharSet, s: Input, s': Input, i: nat)
    requires s.ignoreCase && s'.ignoreCase && SameLetters(s, s') && i < |s.codes|
    ensures Hits(chars, s, i) <==> Hits(chars, s', i)
    ensures s.codes[i] == NEWLINE <==> s'.codes[i] == NEWLINE
  {
    FoldIsOther(s.codes[i], s'.codes[i]);
    FoldCaseTwice(s.codes[i]);
  }

  lemma {:induction false} CaseBlind(node: Node, s: Input, s': Input, i: nat, j: nat)
    requires s.ignoreCase && s'.ignoreCase && SameLetters(s, s') && Matches(node, s, i, j)
    ensures Matches(node, s', i, j)
    decreases node, 0, 0
  {
    match node
    case Char(chars) => SameHits(chars, s, s', i);
    case Any => SameHits(CharSet(false, []), s, s', i);
    case Cat(parts) => CaseBlindAll(parts, s, s', i, j);
    case Group(_, inner) => CaseBlind(inner, s, s', i, j);
    case Alt(branches) =>
      var k :| 0 <= k < |branches| && Matches(branches[k], s, i, j);
      CaseBlind(branches[k], s, s', i, j);
    case Repeat(inner, min, max) =>
      var n: nat :| InBounds(n, min, max) && Times(inner, n, s, i, j);
      CaseBlindTimes(inner, n, s, s', i, j);
    case _ =>
  }

  lemma {:induction false} CaseBlindAll(parts: seq<Node>, s: Input, s': Input, i: nat, j: nat)
    requires s.ignoreCase && s'.ignoreCase && SameLetters(s, s') && MatchesAll(parts, s, i, j)
    ensures MatchesAll(parts, s', i, j)
    decreases parts, 0, 0
  {
    if parts != [] {
      var k: nat :| Matches(parts[0], s, i, k) && MatchesAll(parts[1..], s, k, j);
      CaseBlind(parts[0], s, s', i, k);
      CaseBlindAll(parts[1..], s, s', k, j);
    }
  }

  lemma {:induction false} CaseBlindTimes(node: Node, n: nat, s: Input, s': Input, i: nat, j: nat)
    requires s.ignoreCase && s'.ignoreCase && SameLetters(s, s') && Times(node, n, s, i, j)
    ensures Times(node, n, s', i, j)
    decreases node, 1, n
  {
    if n > 0 {
      var k: nat :| Matches(node, s, i, k) && Times(node, n - 1, s, k, j);
      CaseBlind(node, s, s', i, k);
      CaseBlindTimes(node, n - 1, s, s', k, j);
    }
  }

  lemma SameLettersBack(s: Input, s': Input)
    requires SameLetters(s, s')
    ensures SameLetters(s', s)
  {
    forall i | 0 <= i < |s'.codes| ensures s'.codes[i] == s.codes[i] || OtherCase(s'.codes[i], s.codes[i]) {
      if s.codes[i] != s'.codes[i] {
        var k :| 0 <= k < 26 && Cases(s.codes[i], s'.codes[i], k);
        assert Cases(s'.codes[i], s.codes[i], k);
      }
    }
  }

  /** Ignoring case, a pattern matches from a place in one text exactly when it does in the same text with
      letters in the other case. */
  lemma CaseBlindAt(node: Node, s: Input, s': Input, i: nat)
    requires s.ignoreCase && s'.ignoreCase && SameLetters(s, s')
    ensures MatchesAt(node, s, i) <==> MatchesAt(node, s', i)
  {
    SameLettersBack(s, s');
    if j: nat :| Matches(node, s, i, j) { CaseBlind(node, s, s', i, j); }
    if j: nat :| Matches(node, s', i, j) { CaseBlind(node, s', s, i, j); }
  }

  /** A character stands for itself and, ignoring case, for its other case; for nothing else. */
  lemma LetterHits(c: int, s: Input, i: nat)
    requires i < |s.codes|
    ensures Hits(CharSet(false, [(c, c)]), s, i) <==> s.codes[i] == c || (s.ignoreCase && OtherCase(s.codes[i], c))
  {
    FoldIsOther(s.codes[i], c);
    OneCovered(c, s.codes[i]);
    OneCovered(c, FoldCase(s.codes[i]));
  }

  lemma OneCovered(c: int, code: int)
    ensures Covered([(c, c)], code) <==> code == c
  {
    assert (c, c) in [(c, c)];
  }
}
