/**
 * The string operations the voice-command buffer relies on, with Python's meaning:
 * whitespace as str.isspace (and the regular-expression class \s) sees it, lower() and
 * capitalize() restricted to ASCII letters, strip(), the `in` substring test and
 * str.replace. Split and Join are the reference definitions replace is proved against.
 */
module Text {

  /** The characters Python's str.isspace accepts (the same set \s matches in a str pattern). */
  predicate IsSpace(c: char) {
    || ('\t' <= c <= '\r')
    || ('\U{1C}' <= c <= '\U{1F}')
    || c == ' '
    || c == '\U{85}'
    || c == '\U{A0}'
    || c == '\U{1680}'
    || ('\U{2000}' <= c <= '\U{200A}')
    || c == '\U{2028}'
    || c == '\U{2029}'
    || c == '\U{202F}'
    || c == '\U{205F}'
    || c == '\U{3000}'
  }

  predicate NoSpace(s: string) {
    forall i :: 0 <= i < |s| ==> !IsSpace(s[i])
  }

  predicate AllSpace(s: string) {
    forall i :: 0 <= i < |s| ==> IsSpace(s[i])
  }

  function LowerChar(c: char): (d: char)
    ensures 'A' <= c <= 'Z' ==> 'a' <= d <= 'z'
    ensures !('A' <= c <= 'Z') ==> d == c
  {
    if 'A' <= c <= 'Z' then (c as int + 32) as char else c
  }

  function UpperChar(c: char): (d: char)
    ensures 'a' <= c <= 'z' ==> 'A' <= d <= 'Z'
    ensures !('a' <= c <= 'z') ==> d == c
  {
    if 'a' <= c <= 'z' then (c as int - 32) as char else c
  }

  /** str.lower() on ASCII letters; every other character is kept. */
  function Lower(s: string): (r: string)
    ensures |r| == |s|
    ensures forall i :: 0 <= i < |s| ==> r[i] == LowerChar(s[i])
  {
    seq(|s|, i requires 0 <= i < |s| => LowerChar(s[i]))
  }

  /** str.capitalize(): the first character upper-cased, the rest lower-cased (ASCII). */
  function Capitalize(s: string): (r: string)
    ensures |r| == |s|
    ensures s != [] ==> r[0] == UpperChar(s[0]) && r[1..] == Lower(s[1..])
  {
    if s == [] then [] else [UpperChar(s[0])] + Lower(s[1..])
  }

  /** The length of the run of whitespace that starts at position p (greedy \\s*). */
  function SpaceRun(s: string, p: nat): (n: nat)
    requires p <= |s|
    ensures p + n <= |s|
    ensures forall k {:trigger IsSpace(s[k])} :: p <= k < p + n ==> IsSpace(s[k])
    ensures p + n < |s| ==> !IsSpace(s[p + n])
    decreases |s| - p
  {
    if p < |s| && IsSpace(s[p]) then 1 + SpaceRun(s, p + 1) else 0
  }

  /** The end of s[lo..hi] once its trailing whitespace is dropped. */
  function TrimEnd(s: string, lo: nat, hi: nat): (b: nat)
    requires lo <= hi <= |s|
    ensures lo <= b <= hi
    ensures forall k {:trigger IsSpace(s[k])} :: b <= k < hi ==> IsSpace(s[k])
    ensures b > lo ==> !IsSpace(s[b - 1])
    decreases hi
  {
    if hi > lo && IsSpace(s[hi - 1]) then TrimEnd(s, lo, hi - 1) else hi
  }

  /** Where the stripped text starts. */
  function StripStart(s: string): nat {
    SpaceRun(s, 0)
  }

  /** Where the stripped text ends. */
  function StripEnd(s: string): nat {
    TrimEnd(s, StripStart(s), |s|)
  }

  /** str.strip(): the input with its leading and trailing whitespace removed. */
  function Strip(s: string): (r: string)
    ensures StripStart(s) <= StripEnd(s) <= |s| && r == s[StripStart(s)..StripEnd(s)]
    ensures AllSpace(s[..StripStart(s)]) && AllSpace(s[StripEnd(s)..])
    ensures r == [] || (!IsSpace(r[0]) && !IsSpace(r[|r| - 1]))
  {
    s[StripStart(s)..StripEnd(s)]
  }

  /** A string that neither starts nor ends with whitespace is its own strip. */
  lemma StripKeeps(s: string)
    requires s == [] || (!IsSpace(s[0]) && !IsSpace(s[|s| - 1]))
    ensures Strip(s) == s
  {
  }

  /** Python's `sub in s`. */
  predicate Contains(s: string, sub: string) {
    exists i :: 0 <= i <= |s| && sub <= s[i..]
  }

  /** `any(k in s for k in keys)`. */
  predicate ContainsAny(s: string, keys: seq<string>) {
    exists k :: k in keys && Contains(s, k)
  }

  /** `s[i:].startswith(w)` for a position inside or at the end of s. */
  predicate StartsAt(s: string, i: nat, w: string) {
    i <= |s| && w <= s[i..]
  }

  /** An occurrence of a word inside a longer one is an occurrence of the shorter word. */
  lemma ContainsPrefixOf(s: string, short: string, long: string)
    requires short <= long && Contains(s, long)
    ensures Contains(s, short)
  {
    var i :| 0 <= i <= |s| && long <= s[i..];
    assert short <= s[i..];
  }

  /**
   * str.replace(pat, sub): every occurrence of pat, scanned left to right and not
   * overlapping, replaced by sub. Only a non-empty pat is ever passed.
   */
  function Replace(s: string, pat: string, sub: string): string
    requires pat != []
    decreases |s|
  {
    if s == [] then []
    else if pat <= s then sub + Replace(s[|pat|..], pat, sub)
    else [s[0]] + Replace(s[1..], pat, sub)
  }

  /** str.split(sep) with an explicit separator: the pieces between the occurrences of sep. */
  function Split(s: string, sep: string): (r: seq<string>)
    requires sep != []
    ensures |r| >= 1
    decreases |s|
  {
    if s == [] then [[]]
    else if sep <= s then [[]] + Split(s[|sep|..], sep)
    else
      var t := Split(s[1..], sep);
      [[s[0]] + t[0]] + t[1..]
  }

  /** sep.join(parts). */
  function Join(parts: seq<string>, sep: string): string
    decreases |parts|
  {
    if parts == [] then []
    else if |parts| == 1 then parts[0]
    else parts[0] + sep + Join(parts[1..], sep)
  }

  lemma JoinConsFirst(c: string, t: seq<string>, sep: string)
    requires |t| >= 1
    ensures Join([c + t[0]] + t[1..], sep) == c + Join(t, sep)
  {
    var u := [c + t[0]] + t[1..];
    assert u[1..] == t[1..];
    if |t| == 1 {
    } else {
      calc {
        Join(u, sep);
        u[0] + sep + Join(u[1..], sep);
        (c + t[0]) + sep + Join(t[1..], sep);
        c + (t[0] + sep + Join(t[1..], sep));
      }
    }
  }

  lemma JoinSnoc(parts: seq<string>, x: string, sep: string)
    requires parts != []
    ensures Join(parts + [x], sep) == Join(parts, sep) + sep + x
    decreases |parts|
  {
    if |parts| == 1 {
      assert parts + [x] == [parts[0], x];
      assert [parts[0], x][1..] == [x];
    } else {
      assert (parts + [x])[1..] == parts[1..] + [x];
      JoinSnoc(parts[1..], x, sep);
    }
  }

  /** str.replace agrees with the split/join reference: s.replace(a, b) == b.join(s.split(a)). */
  lemma {:induction false} ReplaceIsJoinOfSplit(s: string, pat: string, sub: string)
    requires pat != []
    ensures Replace(s, pat, sub) == Join(Split(s, pat), sub)
    decreases |s|
  {
    if s == [] {
    } else if pat <= s {
      ReplaceIsJoinOfSplit(s[|pat|..], pat, sub);
      var t := Split(s[|pat|..], pat);
      var u: seq<string> := [[]] + t;
      assert Split(s, pat) == u;
      assert u[1..] == t;
      assert Join(u, sub) == [] + sub + Join(t, sub);
    } else {
      ReplaceIsJoinOfSplit(s[1..], pat, sub);
      JoinConsFirst([s[0]], Split(s[1..], pat), sub);
    }
  }

  /** Replacing a string by itself changes nothing. */
  lemma {:induction false} ReplaceSelf(s: string, pat: string)
    requires pat != []
    ensures Replace(s, pat, pat) == s
    decreases |s|
  {
    if s == [] {
    } else if pat <= s {
      ReplaceSelf(s[|pat|..], pat);
      assert s == pat + s[|pat|..];
    } else {
      ReplaceSelf(s[1..], pat);
      assert s == [s[0]] + s[1..];
    }
  }

  /** Splitting at a separator and joining with it again gives back the string. */
  lemma JoinOfSplit(s: string, sep: string)
    requires sep != []
    ensures Join(Split(s, sep), sep) == s
  {
    ReplaceIsJoinOfSplit(s, sep, sep);
    ReplaceSelf(s, sep);
  }

  /** When pat does not occur, str.replace returns the string unchanged. */
  lemma {:induction false} ReplaceAbsent(s: string, pat: string, sub: string)
    requires pat != [] && !Contains(s, pat)
    ensures Replace(s, pat, sub) == s
    decreases |s|
  {
    if s == [] {
    } else {
      assert s[0..] == s;
      assert !(pat <= s);
      ContainsInTail(s, pat);
      ReplaceAbsent(s[1..], pat, sub);
    }
  }

  lemma ContainsInTail(s: string, pat: string)
    requires s != []
    ensures Contains(s[1..], pat) ==> Contains(s, pat)
  {
    if Contains(s[1..], pat) {
      var i :| 0 <= i <= |s[1..]| && pat <= s[1..][i..];
      assert s[1..][i..] == s[i + 1..];
    }
  }

  /** Splitting at a one-character separator undoes joining pieces that do not contain it. */
  lemma {:induction false} SplitOfJoin(parts: seq<string>, sep: char)
    requires parts != []
    requires forall i :: 0 <= i < |parts| ==> sep !in parts[i]
    ensures Split(Join(parts, [sep]), [sep]) == parts
    decreases |parts|
  {
    if |parts| == 1 {
      SplitWithout(parts[0], sep);
    } else {
      SplitOfJoin(parts[1..], sep);
      SplitAfterPiece(parts[0], Join(parts[1..], [sep]), sep);
      assert parts == [parts[0]] + parts[1..];
    }
  }

  lemma {:induction false} SplitWithout(s: string, sep: char)
    requires sep !in s
    ensures Split(s, [sep]) == [s]
    decreases |s|
  {
    if s != [] {
      assert s[0] in s;
      assert !([sep] <= s);
      SplitWithout(s[1..], sep);
      assert [s[0]] + s[1..] == s;
    }
  }

  lemma {:induction false} SplitAfterPiece(p: string, rest: string, sep: char)
    requires sep !in p
    ensures Split(p + [sep] + rest, [sep]) == [p] + Split(rest, [sep])
    decreases |p|
  {
    var s := p + [sep] + rest;
    if p == [] {
      assert s == [sep] + rest;
      assert [sep] <= s;
      assert s[1..] == rest;
    } else {
      assert p[0] in p;
      assert s[0] == p[0] != sep;
      assert !([sep] <= s);
      SplitAfterPiece(p[1..], rest, sep);
      assert s[1..] == p[1..] + [sep] + rest;
      assert [p[0]] + p[1..] == p;
    }
  }
}
