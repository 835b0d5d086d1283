/**
 * The address pattern shared by all three content scripts,
 *
 *     /\b(?:[0-9]{1,3}\.){3}[0-9]{1,3}\b/g
 *
 * applied with `String.prototype.match`. The matcher below follows the
 * regular-expression engine step by step: every `{1,3}` is greedy and
 * backtracks to shorter counts when the rest of the pattern fails, and `\b`
 * is the ASCII word boundary of a pattern without the `u` flag. The global
 * scan tries each start position from left to right and resumes after the end
 * of every match, so the matches are leftmost and never overlap.
 *
 * The lemmas relate the matcher to a declarative description (four groups of
 * one to three digits joined by dots, between word boundaries, no range check
 * on the groups) and state the shape of the scan.
 */
module IpPattern {
  import opened Wrappers

  /** `\w` without the `u` flag: [A-Za-z0-9_]. */
  predicate IsWordChar(c: char) {
    'A' <= c <= 'Z' || 'a' <= c <= 'z' || '0' <= c <= '9' || c == '_'
  }

  predicate IsDigit(c: char) {
    '0' <= c <= '9'
  }

  /** `\b` at position i: exactly one of the characters around i is a word character. */
  predicate Boundary(s: string, i: nat)
    requires i <= |s|
  {
    (i > 0 && IsWordChar(s[i - 1])) != (i < |s| && IsWordChar(s[i]))
  }

  /** s[i..i+k] exists and consists of digits. */
  predicate DigitsAt(s: string, i: nat, k: nat) {
    i + k <= |s| && forall j :: i <= j < i + k ==> IsDigit(s[j])
  }

  // ---------------------------------------------------------------------------
  // The backtracking matcher
  // ---------------------------------------------------------------------------

  /**
   * The final `[0-9]{1,3}\b` starting at i, trying k, k - 1, ..., 1 digits.
   * Returns the end of the match.
   */
  function LastGroup(s: string, i: nat, k: nat): (r: Option<nat>)
    requires i <= |s|
    ensures r.Some? ==> i < r.value <= |s| && r.value <= i + k
    decreases k
  {
    if k == 0 then None
    else if DigitsAt(s, i, k) && Boundary(s, i + k) then Some(i + k)
    else LastGroup(s, i, k - 1)
  }

  /**
   * n more repetitions of `[0-9]{1,3}\.` followed by the final group, starting
   * at i, the current repetition trying k, k - 1, ..., 1 digits; a count is
   * abandoned (backtracking) when the rest of the pattern fails after it.
   */
  function Groups(s: string, i: nat, n: nat, k: nat): (r: Option<nat>)
    requires i <= |s|
    ensures r.Some? ==> i < r.value <= |s|
    decreases n, k
  {
    if n == 0 then LastGroup(s, i, 3)
    else if k == 0 then None
    else
      var rest :=
        if DigitsAt(s, i, k) && i + k < |s| && s[i + k] == '.'
        then Groups(s, i + k + 1, n - 1, 3)
        else None;
      if rest.Some? then rest else Groups(s, i, n, k - 1)
  }

  /** One attempt of the whole pattern at start position p; the end of the match. */
  function MatchAt(s: string, p: nat): (r: Option<nat>)
    requires p <= |s|
    ensures r.Some? ==> p < r.value <= |s|
  {
    if Boundary(s, p) then Groups(s, p, 3, 3) else None
  }

  // ---------------------------------------------------------------------------
  // The declarative description
  // ---------------------------------------------------------------------------

  /** s[i..j] is one to three digits; no range check on its value. */
  ghost predicate Octet(s: string, i: nat, j: nat) {
    i < j <= |s| && j - i <= 3 && forall k :: i <= k < j ==> IsDigit(s[k])
  }

  /** s[p..e] reads Octet '.' Octet '.' Octet '.' Octet, with the dots at a, b and c. */
  ghost predicate QuadSplit(s: string, p: nat, a: nat, b: nat, c: nat, e: nat) {
    p < a < b < c < e <= |s| &&
    s[a] == '.' && s[b] == '.' && s[c] == '.' &&
    Octet(s, p, a) && Octet(s, a + 1, b) && Octet(s, b + 1, c) && Octet(s, c + 1, e)
  }

  ghost predicate DottedQuad(s: string, p: nat, e: nat) {
    exists a, b, c :: QuadSplit(s, p, a, b, c, e)
  }

  /** What a match from p to e is: a dotted quad with a word boundary on each side. */
  ghost predicate IsMatch(s: string, p: nat, e: nat) {
    p < e <= |s| && Boundary(s, p) && Boundary(s, e) && DottedQuad(s, p, e)
  }

  // ---------------------------------------------------------------------------
  // The matcher agrees with the description
  // ---------------------------------------------------------------------------

  /** The length of the run of digits starting at i. */
  function Run(s: string, i: nat): (r: nat)
    requires i <= |s|
    ensures DigitsAt(s, i, r)
    ensures i + r == |s| || !IsDigit(s[i + r])
    decreases |s| - i
  {
    if i < |s| && IsDigit(s[i]) then 1 + Run(s, i + 1) else 0
  }

  lemma DigitsWithinRun(s: string, i: nat, k: nat)
    requires i <= |s|
    ensures DigitsAt(s, i, k) <==> k <= Run(s, i)
  {
  }

  /** The i-th group ends at the end of its digit run, followed by the rest. */
  ghost predicate Shape(s: string, i: nat, n: nat, e: nat)
    requires i <= |s|
    decreases n
  {
    var m := Run(s, i);
    if n == 0 then 1 <= m <= 3 && e == i + m && Boundary(s, e)
    else 1 <= m <= 3 && i + m < |s| && s[i + m] == '.' && Shape(s, i + m + 1, n - 1, e)
  }

  lemma {:induction false} LastGroupShape(s: string, i: nat, k: nat, e: nat)
    requires i <= |s| && k <= 3
    ensures LastGroup(s, i, k) == Some(e) <==> (Run(s, i) <= k && Shape(s, i, 0, e))
    decreases k
  {
    var m := Run(s, i);
    if k > 0 {
      DigitsWithinRun(s, i, k);
      if !(DigitsAt(s, i, k) && Boundary(s, i + k)) {
        LastGroupShape(s, i, k - 1, e);
      }
    }
  }

  lemma {:induction false} GroupsShape(s: string, i: nat, n: nat, k: nat, e: nat)
    requires i <= |s| && k <= 3
    ensures n > 0 ==> (Groups(s, i, n, k) == Some(e) <==> (Run(s, i) <= k && Shape(s, i, n, e)))
    ensures n == 0 ==> (Groups(s, i, n, k) == Some(e) <==> Shape(s, i, 0, e))
    decreases n, k
  {
    var m := Run(s, i);
    if n == 0 {
      LastGroupShape(s, i, 3, e);
    } else if k > 0 {
      DigitsWithinRun(s, i, k);
      var dot := DigitsAt(s, i, k) && i + k < |s| && s[i + k] == '.';
      assert dot <==> (k == m && i + m < |s| && s[i + m] == '.');
      GroupsShape(s, i, n, k - 1, e);
      if dot {
        GroupsShape(s, i + k + 1, n - 1, 3, e);
        var rest := Groups(s, i + k + 1, n - 1, 3);
        if rest.None? {
          // the shorter counts cannot succeed either
          assert !(Run(s, i) <= k - 1);
        }
      }
    }
  }

  lemma OctetIsRun(s: string, i: nat, j: nat)
    requires Octet(s, i, j) && (j == |s| || !IsDigit(s[j]))
    ensures Run(s, i) == j - i
  {
    DigitsWithinRun(s, i, j - i);
    DigitsWithinRun(s, i, Run(s, i));
  }

  lemma RunIsOctet(s: string, i: nat)
    requires i <= |s| && 1 <= Run(s, i) <= 3
    ensures Octet(s, i, i + Run(s, i))
  {
  }

  lemma ShapeIsMatch(s: string, p: nat, e: nat)
    requires p <= |s|
    ensures (Boundary(s, p) && Shape(s, p, 3, e)) <==> IsMatch(s, p, e)
  {
    if Boundary(s, p) && Shape(s, p, 3, e) {
      ShapeImpliesMatch(s, p, e);
    }
    if IsMatch(s, p, e) {
      MatchImpliesShape(s, p, e);
    }
  }

  lemma {:induction false} ShapeImpliesMatch(s: string, p: nat, e: nat)
    requires p <= |s| && Boundary(s, p) && Shape(s, p, 3, e)
    ensures IsMatch(s, p, e)
  {
    var a := ShapeNext(s, p, 3, e);
    var b, c := ShapeTwoDots(s, a + 1, e);
    assert QuadSplit(s, p, a, b, c, e);
  }

  /** A shape with two more groups: octet, dot, octet, dot, octet, then a boundary. */
  lemma ShapeTwoDots(s: string, i: nat, e: nat) returns (b: nat, c: nat)
    requires i <= |s| && Shape(s, i, 2, e)
    ensures i < b < c < e <= |s| && s[b] == '.' && s[c] == '.' && Boundary(s, e)
    ensures Octet(s, i, b) && Octet(s, b + 1, c) && Octet(s, c + 1, e)
  {
    b := ShapeNext(s, i, 2, e);
    c := ShapeOneDot(s, b + 1, e);
  }

  /** A shape with one more group: octet, dot, octet, then a boundary. */
  lemma ShapeOneDot(s: string, i: nat, e: nat) returns (c: nat)
    requires i <= |s| && Shape(s, i, 1, e)
    ensures i < c < e <= |s| && s[c] == '.' && Boundary(s, e)
    ensures Octet(s, i, c) && Octet(s, c + 1, e)
  {
    c := ShapeNext(s, i, 1, e);
    ShapeEnd(s, c + 1, e);
  }

  /** The group at i of a shape with n more groups is an octet ending at a dot. */
  lemma ShapeNext(s: string, i: nat, n: nat, e: nat) returns (j: nat)
    requires i <= |s| && n > 0 && Shape(s, i, n, e)
    ensures i < j < |s| && s[j] == '.' && Octet(s, i, j) && Shape(s, j + 1, n - 1, e)
  {
    j := i + Run(s, i);
    RunIsOctet(s, i);
  }

  /** The last group of a shape is an octet ending at e, at a boundary. */
  lemma ShapeEnd(s: string, i: nat, e: nat)
    requires i <= |s| && Shape(s, i, 0, e)
    ensures i < e <= |s| && Octet(s, i, e) && Boundary(s, e)
  {
    RunIsOctet(s, i);
  }

  lemma ShapeLast(s: string, i: nat, e: nat)
    requires Octet(s, i, e) && Boundary(s, e)
    ensures Shape(s, i, 0, e)
  {
    assert IsDigit(s[e - 1]);
    OctetIsRun(s, i, e);
  }

  lemma ShapeStep(s: string, i: nat, j: nat, n: nat, e: nat)
    requires n > 0 && Octet(s, i, j) && j < |s| && s[j] == '.' && Shape(s, j + 1, n - 1, e)
    ensures Shape(s, i, n, e)
  {
    OctetIsRun(s, i, j);
  }

  lemma {:induction false} MatchImpliesShape(s: string, p: nat, e: nat)
    requires p <= |s| && IsMatch(s, p, e)
    ensures Shape(s, p, 3, e)
  {
    var a: nat, b: nat, c: nat :| QuadSplit(s, p, a, b, c, e);
    ShapeLast(s, c + 1, e);
    ShapeStep(s, b + 1, c, 1, e);
    ShapeStep(s, a + 1, b, 2, e);
    ShapeStep(s, p, a, 3, e);
  }

  /**
   * The backtracking matcher succeeds at p, ending at e, exactly when s[p..e]
   * is a dotted quad between word boundaries.
   */
  lemma MatchAtIsMatch(s: string, p: nat, e: nat)
    requires p <= |s|
    ensures MatchAt(s, p) == Some(e) <==> IsMatch(s, p, e)
  {
    GroupsShape(s, p, 3, 3, e);
    ShapeIsMatch(s, p, e);
  }

  /** Groups are not range-checked: "999.999.999.999" is a match. */
  lemma NoRangeCheck()
    ensures MatchAt("999.999.999.999", 0) == Some(15)
  {
    var s := "999.999.999.999";
    assert QuadSplit(s, 0, 3, 7, 11, 15);
    MatchAtIsMatch(s, 0, 15);
  }

  /** A run of four digits is not a group: "1234.1.1.1" has no match at its start. */
  lemma FourDigitsRejected()
    ensures MatchAt("1234.1.1.1", 0) == None
  {
    var s := "1234.1.1.1";
    assert Run(s, 0) == 4;
    forall e: nat ensures MatchAt(s, 0) != Some(e) {
      GroupsShape(s, 0, 3, 3, e);
    }
  }

  // ---------------------------------------------------------------------------
  // The global scan of String.prototype.match
  // ---------------------------------------------------------------------------

  datatype Span = Span(start: nat, end: nat)

  /** No match starts in [lo, hi). */
  predicate NoMatchIn(s: string, lo: nat, hi: nat) {
    forall q :: lo <= q < hi && q <= |s| ==> MatchAt(s, q).None?
  }

  /** Where the gap before the i-th span starts: p, or the end of span i - 1. */
  function GapStart(r: seq<Span>, p: nat, i: nat): nat
    requires i <= |r|
  {
    if i == 0 then p else r[i - 1].end
  }

  /** Where the gap before the i-th span ends: its start, or |s| after the last span. */
  function GapEnd(r: seq<Span>, n: nat, i: nat): nat
    requires i <= |r|
  {
    if i == |r| then n else r[i].start
  }

  /**
   * The scan from lastIndex p: each position is tried in turn; after a match
   * the scan resumes at its end.
   */
  function Scan(s: string, p: nat): (r: seq<Span>)
    requires p <= |s|
    ensures forall i :: 0 <= i < |r| ==> p <= r[i].start < r[i].end <= |s|
    ensures forall i :: 0 <= i < |r| ==> MatchAt(s, r[i].start) == Some(r[i].end)
    ensures forall i :: 0 < i < |r| ==> r[i - 1].end <= r[i].start
    decreases |s| - p
  {
    if p == |s| then []
    else match MatchAt(s, p)
      case Some(e) => [Span(p, e)] + Scan(s, e)
      case None => Scan(s, p + 1)
  }

  /**
   * r is leftmost from p: no match starts in the gap before its first span,
   * between two of its spans, or after its last one.
   */
  ghost predicate Leftmost(s: string, r: seq<Span>, p: nat) {
    forall i :: 0 <= i <= |r| ==>
      GapStart(r, p, i) <= GapEnd(r, |s|, i) && NoMatchIn(s, GapStart(r, p, i), GapEnd(r, |s|, i))
  }

  lemma LeftmostCons(s: string, p: nat, e: nat, t: seq<Span>)
    requires p < e && Leftmost(s, t, e)
    ensures Leftmost(s, [Span(p, e)] + t, p)
  {
    var r := [Span(p, e)] + t;
    forall i | 0 < i <= |r|
      ensures GapStart(r, p, i) <= GapEnd(r, |s|, i) && NoMatchIn(s, GapStart(r, p, i), GapEnd(r, |s|, i))
    {
      assert GapStart(r, p, i) == GapStart(t, e, i - 1);
      assert GapEnd(r, |s|, i) == GapEnd(t, |s|, i - 1);
    }
    assert GapStart(r, p, 0) == p == GapEnd(r, |s|, 0);
  }

  lemma LeftmostSkip(s: string, p: nat, r: seq<Span>)
    requires p <= |s| && MatchAt(s, p).None? && Leftmost(s, r, p + 1)
    ensures Leftmost(s, r, p)
  {
    forall i | 0 <= i <= |r|
      ensures GapStart(r, p, i) <= GapEnd(r, |s|, i) && NoMatchIn(s, GapStart(r, p, i), GapEnd(r, |s|, i))
    {
      if i == 0 {
        assert GapStart(r, p + 1, 0) <= GapEnd(r, |s|, 0) && NoMatchIn(s, p + 1, GapEnd(r, |s|, 0));
      } else {
        assert GapStart(r, p, i) == GapStart(r, p + 1, i);
      }
    }
  }

  /** The scan is leftmost. */
  lemma {:induction false} ScanLeftmost(s: string, p: nat)
    requires p <= |s|
    ensures Leftmost(s, Scan(s, p), p)
    decreases |s| - p
  {
    if p < |s| {
      match MatchAt(s, p)
      case Some(e) =>
        ScanLeftmost(s, e);
        LeftmostCons(s, p, e, Scan(s, e));
      case None =>
        ScanLeftmost(s, p + 1);
        LeftmostSkip(s, p, Scan(s, p + 1));
    } else {
      assert Scan(s, p) == [];
      assert GapStart([], p, 0) == p && GapEnd([], |s|, 0) == |s|;
    }
  }

  /** The scan passes over positions where nothing matches. */
  lemma {:induction false} ScanSkips(s: string, p: nat, q: nat)
    requires p <= q <= |s| && forall i :: p <= i < q ==> MatchAt(s, i).None?
    ensures Scan(s, p) == Scan(s, q)
    decreases q - p
  {
    if p < q {
      ScanSkips(s, p + 1, q);
    }
  }

  /** The matched substrings, in order: the array `text.match(ipRegex)` (empty for `null`). */
  function Matches(s: string): (ms: seq<string>)
    ensures var r := Scan(s, 0);
            |ms| == |r| && forall i :: 0 <= i < |r| ==> ms[i] == s[r[i].start..r[i].end]
  {
    var r := Scan(s, 0);
    seq(|r|, i requires 0 <= i < |r| => s[r[i].start..r[i].end])
  }

  /** `matches[0]` when there is a match: the only part the hover and selection handlers use. */
  function FirstMatch(s: string): (m: Option<string>)
    ensures m.None? <==> NoMatchIn(s, 0, |s|)
    ensures m.Some? ==>
      exists p: nat, e: nat :: p <= e <= |s| && MatchAt(s, p) == Some(e) && NoMatchIn(s, 0, p) && m.value == s[p..e]
  {
    var r := Scan(s, 0);
    ScanLeftmost(s, 0);
    assert GapStart(r, 0, 0) == 0;
    if |r| == 0 then
      assert GapEnd(r, |s|, 0) == |s|;
      None
    else
      assert GapEnd(r, |s|, 0) == r[0].start;
      assert MatchAt(s, r[0].start).Some?;
      Some(s[r[0].start..r[0].end])
  }

  /** The first match is the first element of the array `match` returns. */
  lemma FirstMatchIsFirst(s: string)
    ensures var ms := Matches(s);
            FirstMatch(s) == if ms == [] then None else Some(ms[0])
  {
  }
}
