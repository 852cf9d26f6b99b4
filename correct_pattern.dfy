/**
 * The search extract_correction_words performs with the pattern
 *   correct\s+(.+?)\s+with\s+(.+?)(?:\s*[.!?]*\s*$|$)
 * written out as the backtracking order of Python's re.search: start positions
 * left to right; each greedy \s+ tries its longest run first and then shorter ones;
 * each lazy (.+?) tries one character, then two, ...; '.' matches anything but '\n';
 * '$' matches at the end or just before a final '\n'.
 */
module CorrectPattern {
  import opened Common
  import opened Text

  /** Where a match starts, where its two groups lie and where "with" stands. */
  datatype Span = Span(start: nat, g1Start: nat, g1End: nat, withAt: nat, g2Start: nat, g2End: nat)

  predicate IsPunct(c: char) {
    c == '.' || c == '!' || c == '?'
  }

  /** The length of the run of '.', '!' and '?' that starts at p (greedy [.!?]*). */
  function PunctRun(s: string, p: nat): (n: nat)
    requires p <= |s|
    ensures p + n <= |s|
    ensures forall k {:trigger IsPunct(s[k])} :: p <= k < p + n ==> IsPunct(s[k])
    ensures p + n < |s| ==> !IsPunct(s[p + n])
    decreases |s| - p
  {
    if p < |s| && IsPunct(s[p]) then 1 + PunctRun(s, p + 1) else 0
  }

  predicate SpaceIn(s: string, lo: nat, hi: nat)
    requires lo <= hi <= |s|
  {
    forall k {:trigger IsSpace(s[k])} :: lo <= k < hi ==> IsSpace(s[k])
  }

  predicate PunctIn(s: string, lo: nat, hi: nat)
    requires lo <= hi <= |s|
  {
    forall k {:trigger IsPunct(s[k])} :: lo <= k < hi ==> IsPunct(s[k])
  }

  predicate NotNewline(c: char) {
    c != '\n'
  }

  /** What '.' accepts on s[lo..hi]: no newline. */
  predicate NoNewline(s: string, lo: nat, hi: nat)
    requires lo <= hi <= |s|
  {
    forall k {:trigger NotNewline(s[k])} :: lo <= k < hi ==> NotNewline(s[k])
  }

  /** `$` at position j. */
  predicate AtEnd(s: string, j: nat) {
    j == |s| || (j + 1 == |s| && s[j] == '\n')
  }

  /** The closing group `(?:\s*[.!?]*\s*$|$)` at t, decided by taking each run greedily. */
  predicate TailMatches(s: string, t: nat)
    requires t <= |s|
  {
    var a := SpaceRun(s, t);
    var b := PunctRun(s, t + a);
    t + a + b + SpaceRun(s, t + a + b) == |s|
  }

  /** The closing group read literally: some split into spaces, punctuation, spaces, then `$`. */
  predicate TailSplit(s: string, t: nat, a: nat, b: nat, c: nat) {
    && t + a + b + c <= |s|
    && SpaceIn(s, t, t + a)
    && PunctIn(s, t + a, t + a + b)
    && SpaceIn(s, t + a + b, t + a + b + c)
    && AtEnd(s, t + a + b + c)
  }

  lemma {:induction false} SpaceRunCovers(s: string, p: nat, q: nat)
    requires p <= q <= |s| && SpaceIn(s, p, q)
    ensures SpaceRun(s, p) >= q - p
    decreases q - p
  {
    if p < q {
      SpaceRunCovers(s, p + 1, q);
    }
  }

  lemma StartsAtBound(s: string, i: nat, w: string)
    requires StartsAt(s, i, w)
    ensures i + |w| <= |s|
  {
  }

  lemma {:induction false} PunctRunCovers(s: string, p: nat, q: nat)
    requires p <= q <= |s| && PunctIn(s, p, q)
    ensures PunctRun(s, p) >= q - p
    decreases q - p
  {
    if p < q {
      PunctRunCovers(s, p + 1, q);
    }
  }

  /** Taking the runs greedily decides the closing group exactly as backtracking would. */
  lemma TailMatchesIsSplit(s: string, t: nat)
    requires t <= |s|
    ensures TailMatches(s, t) <==> exists a, b, c :: TailSplit(s, t, a, b, c)
  {
    var a := SpaceRun(s, t);
    var b := PunctRun(s, t + a);
    var c := SpaceRun(s, t + a + b);
    if TailMatches(s, t) {
      assert TailSplit(s, t, a, b, c);
    }
    if exists a', b', c' :: TailSplit(s, t, a', b', c') {
      var a', b', c' :| TailSplit(s, t, a', b', c');
      if b' == 0 {
        TailSplitWithoutPunct(s, t, a', c');
      } else {
        TailSplitWithPunct(s, t, a', b', c');
      }
    }
  }

  /** The character before `$`, if any, is the final newline, which is whitespace. */
  lemma SpaceBeforeEnd(s: string, e: nat)
    requires e <= |s| && AtEnd(s, e)
    ensures SpaceIn(s, e, |s|)
  {
    if e < |s| {
      assert IsSpace(s[e]);
    }
  }

  lemma TailSplitWithoutPunct(s: string, t: nat, a: nat, c: nat)
    requires TailSplit(s, t, a, 0, c)
    ensures TailMatches(s, t)
  {
    SpaceBeforeEnd(s, t + a + c);
    assert SpaceIn(s, t, |s|);
    SpaceRunCovers(s, t, |s|);
  }

  lemma TailSplitWithPunct(s: string, t: nat, a: nat, b: nat, c: nat)
    requires TailSplit(s, t, a, b, c) && b > 0
    ensures TailMatches(s, t)
  {
    var a0 := SpaceRun(s, t);
    assert IsPunct(s[t + a]) && !IsSpace(s[t + a]);
    SpaceRunCovers(s, t, t + a);
    assert a0 == a;
    var b0 := PunctRun(s, t + a);
    PunctRunCovers(s, t + a, t + a + b);
    SpaceBeforeEnd(s, t + a + b + c);
    assert SpaceIn(s, t + a + b, |s|);
    assert t + a + b < |s| ==> IsSpace(s[t + a + b]) && !IsPunct(s[t + a + b]);
    if b0 > b {
      assert false;
    }
    SpaceRunCovers(s, t + a + b, |s|);
  }

  /** Group 2 is s[c..e] and the closing group matches after it. */
  predicate Group2Fits(s: string, c: nat, e: nat) {
    c < e <= |s| && NoNewline(s, c, e) && TailMatches(s, e)
  }

  /** From p (just after "with"): whitespace up to c, then group 2 as above. */
  predicate RestAfterWith(s: string, p: nat, c: nat, e: nat) {
    p < c <= |s| && SpaceIn(s, p, c) && Group2Fits(s, c, e)
  }

  /** From b (the end of group 1): whitespace up to w, "with" at w, then the rest. */
  predicate RestAfterGroup1(s: string, b: nat, w: nat, c: nat, e: nat) {
    b < w <= |s| && SpaceIn(s, b, w) && StartsAt(s, w, "with") && RestAfterWith(s, w + 4, c, e)
  }

  /** From a: group 1 is s[a..b], then the rest. */
  predicate RestFromGroup1(s: string, a: nat, b: nat, w: nat, c: nat, e: nat) {
    a < b <= |s| && NoNewline(s, a, b) && RestAfterGroup1(s, b, w, c, e)
  }

  /** The pattern matches s at m. */
  predicate IsMatch(s: string, m: Span) {
    && StartsAt(s, m.start, "correct")
    && m.start + 7 < m.g1Start <= |s|
    && SpaceIn(s, m.start + 7, m.g1Start)
    && RestFromGroup1(s, m.g1Start, m.g1End, m.withAt, m.g2Start, m.g2End)
  }

  /** Lazy group 2 from c: s[c..c+n], then s[c..c+n+1], ... until the closing group matches. */
  function TryGroup2(s: string, st: nat, a: nat, b: nat, w: nat, c: nat, n: nat): Option<Span>
    requires 1 <= n && c + n <= |s| + 1
    decreases |s| + 1 - (c + n)
  {
    if c + n > |s| || s[c + n - 1] == '\n' then None
    else if TailMatches(s, c + n) then Some(Span(st, a, b, w, c, c + n))
    else TryGroup2(s, st, a, b, w, c, n + 1)
  }

  /** The \s+ after "with" (at w), tried with lengths k, k-1, ..., 1. */
  function TrySpace3(s: string, st: nat, a: nat, b: nat, w: nat, k: nat): Option<Span>
    requires w + 4 + k <= |s|
    decreases k
  {
    if k == 0 then None
    else match TryGroup2(s, st, a, b, w, w + 4 + k, 1)
      case Some(m) => Some(m)
      case None => TrySpace3(s, st, a, b, w, k - 1)
  }

  /** The \s+ after group 1 (ending at b), tried with lengths k, ..., 1, each followed by "with". */
  function TrySpace2(s: string, st: nat, a: nat, b: nat, k: nat): Option<Span>
    requires b + k <= |s|
    decreases k
  {
    if k == 0 then None
    else if StartsAt(s, b + k, "with") then
      match TrySpace3(s, st, a, b, b + k, SpaceRun(s, b + k + 4))
      case Some(m) => Some(m)
      case None => TrySpace2(s, st, a, b, k - 1)
    else TrySpace2(s, st, a, b, k - 1)
  }

  /** Lazy group 1 from a: s[a..a+n], then s[a..a+n+1], ... */
  function TryGroup1(s: string, st: nat, a: nat, n: nat): Option<Span>
    requires 1 <= n && a + n <= |s| + 1
    decreases |s| + 1 - (a + n)
  {
    if a + n > |s| || s[a + n - 1] == '\n' then None
    else match TrySpace2(s, st, a, a + n, SpaceRun(s, a + n))
      case Some(m) => Some(m)
      case None => TryGroup1(s, st, a, n + 1)
  }

  /** The \s+ after "correct" (at st), tried with lengths k, ..., 1. */
  function TrySpace1(s: string, st: nat, k: nat): Option<Span>
    requires st + 7 + k <= |s|
    decreases k
  {
    if k == 0 then None
    else match TryGroup1(s, st, st + 7 + k, 1)
      case Some(m) => Some(m)
      case None => TrySpace1(s, st, k - 1)
  }

  /** The first match that starts exactly at i. */
  function MatchAt(s: string, i: nat): Option<Span>
    requires i <= |s|
  {
    if StartsAt(s, i, "correct") then TrySpace1(s, i, SpaceRun(s, i + 7)) else None
  }

  /** re.search from position i on. */
  function SearchFrom(s: string, i: nat): Option<Span>
    decreases |s| + 1 - i
  {
    if i > |s| then None
    else match MatchAt(s, i)
      case Some(m) => Some(m)
      case None => SearchFrom(s, i + 1)
  }

  // Soundness: whatever the search returns is a match of the pattern.

  lemma {:induction false} Group2Sound(s: string, st: nat, a: nat, b: nat, w: nat, c: nat, n: nat)
    requires 1 <= n && c + n <= |s| + 1 && NoNewline(s, c, c + n - 1)
    ensures TryGroup2(s, st, a, b, w, c, n).Some? ==>
      var m := TryGroup2(s, st, a, b, w, c, n).value;
      m == Span(st, a, b, w, c, m.g2End) && Group2Fits(s, c, m.g2End)
    decreases |s| + 1 - (c + n)
  {
    if c + n <= |s| && s[c + n - 1] != '\n' && !TailMatches(s, c + n) {
      Group2Sound(s, st, a, b, w, c, n + 1);
      assert TryGroup2(s, st, a, b, w, c, n) == TryGroup2(s, st, a, b, w, c, n + 1);
    }
  }

  lemma {:induction false} Space3Sound(s: string, st: nat, a: nat, b: nat, w: nat, k: nat)
    requires w + 4 + k <= |s| && SpaceIn(s, w + 4, w + 4 + k)
    ensures TrySpace3(s, st, a, b, w, k).Some? ==>
      var m := TrySpace3(s, st, a, b, w, k).value;
      m.start == st && m.g1Start == a && m.g1End == b && m.withAt == w && RestAfterWith(s, w + 4, m.g2Start, m.g2End)
    decreases k
  {
    if k > 0 {
      Group2Sound(s, st, a, b, w, w + 4 + k, 1);
      Space3Sound(s, st, a, b, w, k - 1);
      var r := TryGroup2(s, st, a, b, w, w + 4 + k, 1);
      assert TrySpace3(s, st, a, b, w, k) == if r.Some? then r else TrySpace3(s, st, a, b, w, k - 1);
    }
  }

  lemma {:induction false} Space2Sound(s: string, st: nat, a: nat, b: nat, k: nat)
    requires b + k <= |s| && SpaceIn(s, b, b + k)
    ensures TrySpace2(s, st, a, b, k).Some? ==>
      var m := TrySpace2(s, st, a, b, k).value;
      m.start == st && m.g1Start == a && m.g1End == b && RestAfterGroup1(s, b, m.withAt, m.g2Start, m.g2End)
    decreases k
  {
    if k > 0 {
      Space2Sound(s, st, a, b, k - 1);
      if StartsAt(s, b + k, "with") {
        StartsAtBound(s, b + k, "with");
        Space3Sound(s, st, a, b, b + k, SpaceRun(s, b + k + 4));
        var r := TrySpace3(s, st, a, b, b + k, SpaceRun(s, b + k + 4));
        assert TrySpace2(s, st, a, b, k) == if r.Some? then r else TrySpace2(s, st, a, b, k - 1);
      } else {
        assert TrySpace2(s, st, a, b, k) == TrySpace2(s, st, a, b, k - 1);
      }
    }
  }

  lemma {:induction false} Group1Sound(s: string, st: nat, a: nat, n: nat)
    requires 1 <= n && a + n <= |s| + 1 && NoNewline(s, a, a + n - 1)
    ensures TryGroup1(s, st, a, n).Some? ==>
      var m := TryGroup1(s, st, a, n).value;
      m.start == st && m.g1Start == a && RestFromGroup1(s, a, m.g1End, m.withAt, m.g2Start, m.g2End)
    decreases |s| + 1 - (a + n)
  {
    if a + n <= |s| && s[a + n - 1] != '\n' {
      Space2Sound(s, st, a, a + n, SpaceRun(s, a + n));
      Group1Sound(s, st, a, n + 1);
      var r := TrySpace2(s, st, a, a + n, SpaceRun(s, a + n));
      assert TryGroup1(s, st, a, n) == if r.Some? then r else TryGroup1(s, st, a, n + 1);
    }
  }

  lemma {:induction false} Space1Sound(s: string, st: nat, k: nat)
    requires st + 7 + k <= |s| && SpaceIn(s, st + 7, st + 7 + k)
    ensures TrySpace1(s, st, k).Some? ==>
      var m := TrySpace1(s, st, k).value;
      m.start == st && st + 7 < m.g1Start <= |s| && SpaceIn(s, st + 7, m.g1Start)
      && RestFromGroup1(s, m.g1Start, m.g1End, m.withAt, m.g2Start, m.g2End)
    decreases k
  {
    if k > 0 && st + 7 + k + 1 <= |s| + 1 {
      Group1Sound(s, st, st + 7 + k, 1);
      Space1Sound(s, st, k - 1);
      var r := TryGroup1(s, st, st + 7 + k, 1);
      assert TrySpace1(s, st, k) == if r.Some? then r else TrySpace1(s, st, k - 1);
    }
  }

  /** A match MatchAt reports starts where it was asked to and is a match of the pattern. */
  lemma MatchAtSound(s: string, i: nat)
    requires i <= |s|
    ensures MatchAt(s, i).Some? ==> IsMatch(s, MatchAt(s, i).value) && MatchAt(s, i).value.start == i
  {
    if StartsAt(s, i, "correct") {
      StartsAtBound(s, i, "correct");
      Space1Sound(s, i, SpaceRun(s, i + 7));
      assert MatchAt(s, i) == TrySpace1(s, i, SpaceRun(s, i + 7));
    }
  }

  /** Whatever re.search reports from i on is a match of the pattern starting at i or later. */
  lemma {:induction false} SearchFromSound(s: string, i: nat)
    ensures SearchFrom(s, i).Some? ==> IsMatch(s, SearchFrom(s, i).value) && SearchFrom(s, i).value.start >= i
    decreases |s| + 1 - i
  {
    if i <= |s| {
      MatchAtSound(s, i);
      SearchFromSound(s, i + 1);
      var r := MatchAt(s, i);
      assert SearchFrom(s, i) == if r.Some? then r else SearchFrom(s, i + 1);
    }
  }

  // Completeness: whenever the pattern matches somewhere, the search finds the leftmost start.

  lemma {:induction false} Group2Complete(s: string, st: nat, a: nat, b: nat, w: nat, c: nat, e: nat, n: nat)
    requires Group2Fits(s, c, e) && 1 <= n <= e - c
    ensures TryGroup2(s, st, a, b, w, c, n).Some?
    decreases e - c - n
  {
    assert NotNewline(s[c + n - 1]);
    if TailMatches(s, c + n) {
      assert TryGroup2(s, st, a, b, w, c, n) == Some(Span(st, a, b, w, c, c + n));
    } else {
      Group2Complete(s, st, a, b, w, c, e, n + 1);
      assert TryGroup2(s, st, a, b, w, c, n) == TryGroup2(s, st, a, b, w, c, n + 1);
    }
  }

  lemma {:induction false} Space3Complete(s: string, st: nat, a: nat, b: nat, w: nat, c: nat, e: nat, k: nat)
    requires RestAfterWith(s, w + 4, c, e)
    requires c - (w + 4) <= k && w + 4 + k <= |s|
    ensures TrySpace3(s, st, a, b, w, k).Some?
    decreases k
  {
    var r := TryGroup2(s, st, a, b, w, w + 4 + k, 1);
    assert TrySpace3(s, st, a, b, w, k) == if r.Some? then r else TrySpace3(s, st, a, b, w, k - 1);
    if k == c - (w + 4) {
      Group2Complete(s, st, a, b, w, c, e, 1);
    } else {
      Space3Complete(s, st, a, b, w, c, e, k - 1);
    }
  }

  lemma {:induction false} Space2Complete(s: string, st: nat, a: nat, b: nat, w: nat, c: nat, e: nat, k: nat)
    requires RestAfterGroup1(s, b, w, c, e)
    requires w - b <= k && b + k <= |s|
    ensures TrySpace2(s, st, a, b, k).Some?
    decreases k
  {
    if k == w - b {
      Space2CompleteAtWith(s, st, a, b, w, c, e);
    } else {
      Space2Complete(s, st, a, b, w, c, e, k - 1);
      Space2Step(s, st, a, b, k);
    }
  }

  /** The \s+ after group 1 that reaches exactly the "with" of the match. */
  lemma Space2CompleteAtWith(s: string, st: nat, a: nat, b: nat, w: nat, c: nat, e: nat)
    requires RestAfterGroup1(s, b, w, c, e)
    ensures TrySpace2(s, st, a, b, w - b).Some?
  {
    SpaceRunCovers(s, w + 4, c);
    Space3Complete(s, st, a, b, w, c, e, SpaceRun(s, w + 4));
    var r := TrySpace3(s, st, a, b, w, SpaceRun(s, w + 4));
    assert TrySpace2(s, st, a, b, w - b) == r;
  }

  /** When a shorter \s+ after group 1 leads to a match, so does this one. */
  lemma Space2Step(s: string, st: nat, a: nat, b: nat, k: nat)
    requires 1 <= k && b + k <= |s| && TrySpace2(s, st, a, b, k - 1).Some?
    ensures TrySpace2(s, st, a, b, k).Some?
  {
    if StartsAt(s, b + k, "with") {
      var r := TrySpace3(s, st, a, b, b + k, SpaceRun(s, b + k + 4));
      assert TrySpace2(s, st, a, b, k) == if r.Some? then r else TrySpace2(s, st, a, b, k - 1);
    } else {
      assert TrySpace2(s, st, a, b, k) == TrySpace2(s, st, a, b, k - 1);
    }
  }

  lemma {:induction false} Group1Complete(s: string, st: nat, a: nat, b: nat, w: nat, c: nat, e: nat, n: nat)
    requires RestFromGroup1(s, a, b, w, c, e) && 1 <= n <= b - a
    ensures TryGroup1(s, st, a, n).Some?
    decreases b - a - n
  {
    if n == b - a {
      assert NotNewline(s[b - 1]);
      Group1CompleteAtEnd(s, st, a, b, w, c, e);
    } else {
      assert NotNewline(s[a + n - 1]);
      Group1Unfold(s, st, a, n);
      Group1Complete(s, st, a, b, w, c, e, n + 1);
    }
  }

  /** Group 1 of exactly the match's length. */
  lemma Group1CompleteAtEnd(s: string, st: nat, a: nat, b: nat, w: nat, c: nat, e: nat)
    requires a < b <= |s| && NotNewline(s[b - 1]) && RestAfterGroup1(s, b, w, c, e)
    ensures TryGroup1(s, st, a, b - a).Some?
  {
    Group1Unfold(s, st, a, b - a);
    SpaceRunCovers(s, b, w);
    Space2Complete(s, st, a, b, w, c, e, SpaceRun(s, b));
  }

  /** One step of the lazy group 1: the continuation at this length, else the next length. */
  lemma Group1Unfold(s: string, st: nat, a: nat, n: nat)
    requires 1 <= n && a + n <= |s| && NotNewline(s[a + n - 1])
    ensures TrySpace2(s, st, a, a + n, SpaceRun(s, a + n)).Some? ==> TryGroup1(s, st, a, n).Some?
    ensures TryGroup1(s, st, a, n + 1).Some? ==> TryGroup1(s, st, a, n).Some?
  {
    var r := TrySpace2(s, st, a, a + n, SpaceRun(s, a + n));
    assert TryGroup1(s, st, a, n) == if r.Some? then r else TryGroup1(s, st, a, n + 1);
  }

  lemma {:induction false} Space1Complete(s: string, st: nat, a: nat, b: nat, w: nat, c: nat, e: nat, k: nat)
    requires st + 7 < a && RestFromGroup1(s, a, b, w, c, e)
    requires a - (st + 7) <= k && st + 7 + k <= |s|
    ensures TrySpace1(s, st, k).Some?
    decreases k
  {
    var r := TryGroup1(s, st, st + 7 + k, 1);
    assert TrySpace1(s, st, k) == if r.Some? then r else TrySpace1(s, st, k - 1);
    if k == a - (st + 7) {
      Group1Complete(s, st, a, b, w, c, e, 1);
    } else {
      Space1Complete(s, st, a, b, w, c, e, k - 1);
    }
  }

  lemma MatchAtComplete(s: string, m: Span)
    requires IsMatch(s, m)
    ensures MatchAt(s, m.start).Some?
  {
    SpaceRunCovers(s, m.start + 7, m.g1Start);
    Space1Complete(s, m.start, m.g1Start, m.g1End, m.withAt, m.g2Start, m.g2End, SpaceRun(s, m.start + 7));
  }

  lemma {:induction false} SearchFromComplete(s: string, m: Span, i: nat)
    requires IsMatch(s, m) && i <= m.start
    ensures SearchFrom(s, i).Some? && SearchFrom(s, i).value.start <= m.start
    decreases m.start - i
  {
    MatchAtSound(s, i);
    if MatchAt(s, i).None? {
      if i == m.start {
        MatchAtComplete(s, m);
      } else {
        SearchFromComplete(s, m, i + 1);
      }
    }
  }

  /**
   * re.search succeeds exactly when the pattern matches somewhere; what it reports is a
   * match, and no match starts further left.
   */
  lemma SearchFindsLeftmost(s: string)
    ensures SearchFrom(s, 0).Some? <==> exists m :: IsMatch(s, m)
    ensures SearchFrom(s, 0).Some? ==> IsMatch(s, SearchFrom(s, 0).value)
    ensures forall m :: IsMatch(s, m) ==> SearchFrom(s, 0).value.start <= m.start
  {
    SearchFromSound(s, 0);
    forall m | IsMatch(s, m)
      ensures SearchFrom(s, 0).Some? && SearchFrom(s, 0).value.start <= m.start
    {
      SearchFromComplete(s, m, 0);
    }
  }

  /** The trailing run of '.', '!' and '?' removed. */
  function DropPunctSuffix(t: string): (r: string)
    ensures r <= t && PunctIn(t, |r|, |t|)
    ensures r == [] || !IsPunct(r[|r| - 1])
    decreases |t|
  {
    if t != [] && IsPunct(t[|t| - 1]) then DropPunctSuffix(t[..|t| - 1]) else t
  }

  /** re.sub(r'[.!?]+$', '', t): the only match is the trailing punctuation run, before a final newline if there is one. */
  function DropTrailingPunct(t: string): string {
    if t != [] && t[|t| - 1] == '\n' then DropPunctSuffix(t[..|t| - 1]) + "\n" else DropPunctSuffix(t)
  }

  /** A word with no whitespace at either end, as str.strip() leaves it. */
  predicate Stripped(t: string) {
    t == [] || (!IsSpace(t[0]) && !IsSpace(t[|t| - 1]))
  }

  /**
   * The two words a match yields: the first group stripped, the second stripped, cleared of
   * its trailing punctuation and stripped again.
   */
  function WordsOf(lower: string, m: Span): (r: (string, string))
    requires IsMatch(lower, m)
    ensures '\n' !in r.0 && '\n' !in r.1
    ensures Stripped(r.0) && Stripped(r.1)
  {
    var g2 := Strip(lower[m.g2Start..m.g2End]);
    NoNewlineAfterStrip(lower, m.g1Start, m.g1End);
    assert '\n' !in g2 by { NoNewlineAfterStrip(lower, m.g2Start, m.g2End); }
    assert '\n' !in DropPunctSuffix(g2);
    (Strip(lower[m.g1Start..m.g1End]), Strip(DropTrailingPunct(g2)))
  }

  /**
   * extract_correction_words: the words of the first match. None when the pattern does not
   * match (the source's (None, None)); either word can still come out empty.
   */
  function ExtractCorrectionWords(lower: string): (r: Option<(string, string)>)
    ensures r.Some? ==> '\n' !in r.value.0 && '\n' !in r.value.1
    ensures r.Some? ==> Stripped(r.value.0) && Stripped(r.value.1)
  {
    SearchFromSound(lower, 0);
    match SearchFrom(lower, 0)
    case None => None
    case Some(m) => Some(WordsOf(lower, m))
  }

  /** extract_correction_words finds words exactly when the pattern matches somewhere in the text. */
  lemma ExtractFindsMatch(lower: string)
    ensures ExtractCorrectionWords(lower).Some? <==> exists m :: IsMatch(lower, m)
  {
    SearchFindsLeftmost(lower);
  }

  lemma NoNewlineAfterStrip(s: string, lo: nat, hi: nat)
    requires lo <= hi <= |s| && NoNewline(s, lo, hi)
    ensures '\n' !in s[lo..hi] && '\n' !in Strip(s[lo..hi])
  {
    var t := s[lo..hi];
    forall k | 0 <= k < |t| ensures t[k] != '\n' {
      assert t[k] == s[lo + k] && NotNewline(s[lo + k]);
    }
    var u := Strip(t);
    assert forall k :: 0 <= k < |u| ==> u[k] == t[StripStart(t) + k];
  }

  // The sentence as a speaker says it: "correct X with Y".

  lemma {:induction false} Group1InsideWord(s: string, a: nat, n: nat, len: nat)
    requires 1 <= n <= len && a + len <= |s|
    requires forall k {:trigger IsSpace(s[k])} :: a <= k < a + len ==> !IsSpace(s[k])
    requires NoNewline(s, a, a + len)
    ensures TryGroup1(s, 0, a, n) == TryGroup1(s, 0, a, len)
    decreases len - n
  {
    if n < len {
      assert NotNewline(s[a + n - 1]);
      assert !IsSpace(s[a + n]);
      Group1Skip(s, a, n);
      Group1InsideWord(s, a, n + 1, len);
    }
  }

  /** A group 1 that ends just before a non-space cannot be followed by \s+, so the next length is tried. */
  lemma Group1Skip(s: string, a: nat, n: nat)
    requires 1 <= n && a + n < |s| && NotNewline(s[a + n - 1]) && !IsSpace(s[a + n])
    ensures TryGroup1(s, 0, a, n) == TryGroup1(s, 0, a, n + 1)
  {
    assert SpaceRun(s, a + n) == 0;
  }

  lemma TailFailsBeforeWord(s: string, t: nat)
    requires t < |s| && !IsSpace(s[|s| - 1]) && !IsPunct(s[|s| - 1])
    ensures !TailMatches(s, t)
  {
  }

  lemma {:induction false} Group2InsidePhrase(s: string, b: nat, w: nat, c: nat, n: nat)
    requires 1 <= n <= |s| - c
    requires NoNewline(s, c, |s|) && !IsSpace(s[|s| - 1]) && !IsPunct(s[|s| - 1])
    ensures TryGroup2(s, 0, 8, b, w, c, n) == Some(Span(0, 8, b, w, c, |s|))
    decreases |s| - c - n
  {
    assert NotNewline(s[c + n - 1]);
    if c + n < |s| {
      TailFailsBeforeWord(s, c + n);
      Group2InsidePhrase(s, b, w, c, n + 1);
      assert TryGroup2(s, 0, 8, b, w, c, n) == TryGroup2(s, 0, 8, b, w, c, n + 1);
    } else {
      assert TailMatches(s, |s|);
    }
  }

  /** After " with ": one space, then the phrase up to the end. */
  lemma SentenceAfterWith(s: string, b: nat, w: nat)
    requires w + 5 < |s| && s[w + 4] == ' ' && !IsSpace(s[w + 5])
    requires NoNewline(s, w + 5, |s|) && !IsSpace(s[|s| - 1]) && !IsPunct(s[|s| - 1])
    ensures TrySpace3(s, 0, 8, b, w, SpaceRun(s, w + 4)) == Some(Span(0, 8, b, w, w + 5, |s|))
  {
    assert SpaceRun(s, w + 5) == 0;
    assert SpaceRun(s, w + 4) == 1;
    Group2InsidePhrase(s, b, w, w + 5, 1);
    assert TrySpace3(s, 0, 8, b, w, 1) == TryGroup2(s, 0, 8, b, w, w + 5, 1);
  }

  /** After the word: one space, "with", then as above. */
  lemma SentenceAfterWord(s: string, b: nat)
    requires b + 6 < |s| && s[b] == ' ' && StartsAt(s, b + 1, "with") && s[b + 5] == ' ' && !IsSpace(s[b + 6])
    requires !IsSpace(s[b + 1])
    requires NoNewline(s, b + 6, |s|) && !IsSpace(s[|s| - 1]) && !IsPunct(s[|s| - 1])
    ensures TrySpace2(s, 0, 8, b, SpaceRun(s, b)) == Some(Span(0, 8, b, b + 1, b + 6, |s|))
  {
    assert SpaceRun(s, b + 1) == 0;
    assert SpaceRun(s, b) == 1;
    SentenceAfterWith(s, b, b + 1);
    assert TrySpace2(s, 0, 8, b, 1) == TrySpace3(s, 0, 8, b, b + 1, SpaceRun(s, b + 5));
  }

  /**
   * s reads "correct", one space, a word of L characters without whitespace or newline,
   * " with ", then a phrase without newlines that starts with a non-space and ends with
   * neither whitespace nor closing punctuation.
   */
  predicate SentenceShape(s: string, L: nat) {
    && L >= 1 && |s| > 14 + L
    && StartsAt(s, 0, "correct") && StartsAt(s, 9 + L, "with")
    && s[7] == ' ' && s[8 + L] == ' ' && s[13 + L] == ' '
    && (forall k {:trigger IsSpace(s[k])} :: 8 <= k < 8 + L ==> !IsSpace(s[k]))
    && !IsSpace(s[9 + L]) && !IsSpace(s[14 + L])
    && NoNewline(s, 8, 8 + L) && NoNewline(s, 14 + L, |s|)
    && !IsSpace(s[|s| - 1]) && !IsPunct(s[|s| - 1])
  }

  /** The search on a sentence of that shape finds the word and the phrase, starting at 0. */
  lemma SentenceMatch(s: string, L: nat, e: nat)
    requires SentenceShape(s, L) && e == |s|
    ensures MatchAt(s, 0) == Some(Span(0, 8, 8 + L, 9 + L, 14 + L, e))
  {
    var m := Span(0, 8, 8 + L, 9 + L, 14 + L, e);
    Group1InsideWord(s, 8, 1, L);
    SentenceAfterWord(s, 8 + L);
    assert NotNewline(s[8 + L - 1]);
    assert TryGroup1(s, 0, 8, L) == Some(m);
    assert SpaceRun(s, 8) == 0;
    assert SpaceRun(s, 7) == 1;
    assert TrySpace1(s, 0, 1) == Some(m);
  }

  lemma StartsAtPrefix(a: string, b: string, i: nat, w: string)
    requires StartsAt(a, i, w) && i + |w| <= |a|
    ensures StartsAt(a + b, i, w)
  {
    assert (a + b)[i..][..|w|] == a[i..][..|w|];
  }

  lemma StartsAtSuffix(a: string, b: string, i: nat, w: string)
    requires StartsAt(b, i, w)
    ensures StartsAt(a + b, |a| + i, w)
  {
    assert (a + b)[|a| + i..] == b[i..];
  }

  lemma NoNewlineAfter(h: string, y: string)
    requires '\n' !in y
    ensures NoNewline(h + y, |h|, |h + y|)
  {
    forall k | |h| <= k < |h + y| ensures NotNewline((h + y)[k]) {
      assert (h + y)[k] == y[k - |h|];
    }
  }

  /** "correct " + x + " with ": the part of the sentence before the phrase. */
  lemma HeadLayout(x: string)
    requires x != [] && NoSpace(x)
    ensures var h := "correct " + x + " with ";
      && |h| == 14 + |x|
      && StartsAt(h, 0, "correct") && StartsAt(h, 9 + |x|, "with")
      && h[7] == ' ' && h[8 + |x|] == ' ' && h[13 + |x|] == ' ' && !IsSpace(h[9 + |x|])
      && (forall k {:trigger h[k]} :: 8 <= k < 8 + |x| ==> h[k] == x[k - 8])
  {
    var c := "correct ";
    assert StartsAt(c, 0, "correct");
    StartsAtPrefix(c, x, 0, "correct");
    var w := " with ";
    assert StartsAt(w, 1, "with");
    StartsAtSuffix(c + x, w, 1, "with");
    StartsAtPrefix(c, x + w, 0, "correct");
    assert c + x + w == c + (x + w);
  }

  /** The sentence "correct X with Y" has the shape SentenceMatch expects, with X and Y in place. */
  lemma SentenceLayout(x: string, y: string)
    requires x != [] && NoSpace(x)
    requires y != [] && '\n' !in y && !IsSpace(y[0]) && !IsSpace(y[|y| - 1]) && !IsPunct(y[|y| - 1])
    ensures var s := "correct " + x + " with " + y;
      && SentenceShape(s, |x|) && s[8..8 + |x|] == x && s[14 + |x|..|s|] == y
  {
    var h := "correct " + x + " with ";
    var s := h + y;
    var L := |x|;
    HeadLayout(x);
    StartsAtPrefix(h, y, 0, "correct");
    StartsAtPrefix(h, y, 9 + L, "with");
    forall k | 8 <= k < 8 + L ensures !IsSpace(s[k]) && NotNewline(s[k]) {
      assert s[k] == h[k] == x[k - 8];
      assert x[k - 8] in x;
    }
    NoNewlineAfter(h, y);
    assert s[14 + L] == y[0] && s[|s| - 1] == y[|y| - 1];
    SliceOfSecond("correct ", x, " with ", y);
    SliceOfLast(h, y);
  }

  lemma SliceOfSecond(a: string, b: string, c: string, d: string)
    ensures (a + b + c + d)[|a|..|a| + |b|] == b
  {
    var s := a + b + c + d;
    assert forall k :: 0 <= k < |b| ==> s[|a| + k] == b[k];
  }

  lemma SliceOfLast(h: string, y: string)
    ensures (h + y)[|h|..|h| + |y|] == y
  {
  }

  /** A match at position 0 is the one re.search reports. */
  lemma SearchFromStart(s: string)
    requires MatchAt(s, 0).Some?
    ensures SearchFrom(s, 0) == MatchAt(s, 0)
  {
  }

  /** What extract_correction_words hands back once the search has found m. */
  lemma ExtractFromMatch(s: string, m: Span, target: string, replacement: string)
    requires SearchFrom(s, 0) == Some(m)
    requires m.g1Start <= m.g1End <= |s| && m.g2Start <= m.g2End <= |s|
    requires Strip(s[m.g1Start..m.g1End]) == target
    requires Strip(DropTrailingPunct(Strip(s[m.g2Start..m.g2End]))) == replacement
    ensures ExtractCorrectionWords(s) == Some((target, replacement))
  {
    SearchFromSound(s, 0);
    assert WordsOf(s, m) == (target, replacement);
  }

  /** A phrase that does not end in '.', '!', '?' or a newline keeps its end. */
  lemma DropTrailingPunctKeeps(y: string)
    requires y != [] && y[|y| - 1] != '\n' && !IsPunct(y[|y| - 1])
    ensures DropTrailingPunct(y) == y
  {
  }

  /** On a sentence of that shape the leftmost match is the one at 0. */
  lemma SentenceSearch(s: string, L: nat)
    requires SentenceShape(s, L)
    ensures SearchFrom(s, 0) == Some(Span(0, 8, 8 + L, 9 + L, 14 + L, |s|))
  {
    SentenceMatch(s, L, |s|);
    SearchFromStart(s);
  }

  /** A match whose first group is a stripped word and whose second is a phrase that keeps its end. */
  lemma MatchWords(s: string, m: Span, x: string, y: string)
    requires SearchFrom(s, 0) == Some(m)
    requires m.g1Start <= m.g1End <= |s| && m.g2Start <= m.g2End <= |s|
    requires s[m.g1Start..m.g1End] == x && s[m.g2Start..m.g2End] == y
    requires x != [] && !IsSpace(x[0]) && !IsSpace(x[|x| - 1])
    requires y != [] && y[|y| - 1] != '\n' && !IsSpace(y[0]) && !IsSpace(y[|y| - 1]) && !IsPunct(y[|y| - 1])
    ensures ExtractCorrectionWords(s) == Some((x, y))
  {
    StripKeeps(x);
    StripKeeps(y);
    DropTrailingPunctKeeps(y);
    ExtractFromMatch(s, m, x, y);
  }

  /** On a sentence of that shape the command hands back the word and the phrase. */
  lemma SentenceExtract(s: string, x: string, y: string)
    requires SentenceShape(s, |x|) && s[8..8 + |x|] == x && s[14 + |x|..|s|] == y
    requires NoSpace(x) && y != [] && y[|y| - 1] != '\n' && !IsSpace(y[0]) && !IsSpace(y[|y| - 1]) && !IsPunct(y[|y| - 1])
    ensures ExtractCorrectionWords(s) == Some((x, y))
  {
    var L := |x|;
    var m := Span(0, 8, 8 + L, 9 + L, 14 + L, |s|);
    SentenceSearch(s, L);
    MatchWords(s, m, x, y);
  }

  /**
   * "correct X with Y": X one word, Y a phrase without surrounding whitespace, newlines or
   * closing punctuation; the command hands back exactly X and Y.
   */
  lemma CorrectionRoundTrip(x: string, y: string)
    requires x != [] && NoSpace(x)
    requires y != [] && '\n' !in y && !IsSpace(y[0]) && !IsSpace(y[|y| - 1]) && !IsPunct(y[|y| - 1])
    ensures ExtractCorrectionWords("correct " + x + " with " + y) == Some((x, y))
  {
    SentenceLayout(x, y);
    assert y[|y| - 1] in y;
    SentenceExtract("correct " + x + " with " + y, x, y);
  }
}
