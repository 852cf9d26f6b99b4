/**
 * Classification of one final transcript into a voice command. The sentence is lower-cased
 * and stripped, then the keyword tests run in a fixed priority order: escape, undo-words,
 * correct, undo-that, newline, paragraph, stop. The undo-words count is parsed from the
 * pattern `undo last (\d+) word` or from a written number one..ten.
 */
module VoiceCommands {
  import opened Common
  import opened Text
  import CorrectPattern

  const EscapeKeywords: seq<string> := ["literal", "literally"]
  const DeleteKeywords: seq<string> := ["undo that"]
  const NewlineKeywords: seq<string> := ["newline", "new line"]
  const ParagraphKeywords: seq<string> := ["next para", "new para", "next paragraph", "new paragraph"]
  const StopKeywords: seq<string> := ["end voice", "end recording", "stop recording", "stop voice"]

  /** "undo word" anywhere, or both "undo last" and "word" (Python's `or` binds looser than `and`). */
  predicate IsUndoWordsCommand(lower: string) {
    Contains(lower, "undo word") || (Contains(lower, "undo last") && Contains(lower, "word"))
  }

  /** Both "correct" and "with" occur somewhere. */
  predicate IsCorrectCommand(lower: string) {
    Contains(lower, "correct") && Contains(lower, "with")
  }

  // ---------------------------------------------------------------------------------------
  // The undo count

  /** The ASCII digits 0-9. */
  predicate IsDigit(c: char) {
    '0' <= c <= '9'
  }

  predicate AllDigits(d: string) {
    forall k {:trigger d[k]} :: 0 <= k < |d| ==> IsDigit(d[k])
  }

  predicate NoDigit(d: string) {
    forall k {:trigger d[k]} :: 0 <= k < |d| ==> !IsDigit(d[k])
  }

  /** The length of the run of digits starting at p (greedy \d+ without its lower bound). */
  function DigitRun(s: string, p: nat): (n: nat)
    requires p <= |s|
    ensures p + n <= |s|
    ensures forall k {:trigger IsDigit(s[k])} :: p <= k < p + n ==> IsDigit(s[k])
    ensures p + n < |s| ==> !IsDigit(s[p + n])
    decreases |s| - p
  {
    if p < |s| && IsDigit(s[p]) then 1 + DigitRun(s, p + 1) else 0
  }

  function DigitValue(c: char): (v: nat)
    requires IsDigit(c)
    ensures v < 10
  {
    c as int - '0' as int
  }

  function DigitChar(v: nat): (c: char)
    requires v < 10
    ensures IsDigit(c) && DigitValue(c) == v
  {
    ('0' as int + v) as char
  }

  /** int(d) for a string of ASCII digits: leading zeros are allowed. */
  function DecimalValue(d: string): nat
    requires AllDigits(d)
    decreases |d|
  {
    if d == [] then 0
    else
      var h := d[..|d| - 1];
      assert AllDigits(h) by {
        forall k | 0 <= k < |h| ensures IsDigit(h[k]) {
          assert h[k] == d[k];
        }
      }
      10 * DecimalValue(h) + DigitValue(d[|d| - 1])
  }

  /** str(n): the decimal writing of n, without leading zeros. */
  function Decimal(n: nat): (d: string)
    ensures d != [] && AllDigits(d)
    decreases n
  {
    if n < 10 then [DigitChar(n)]
    else
      var h := Decimal(n / 10);
      var d := h + [DigitChar(n % 10)];
      assert forall k :: 0 <= k < |h| ==> d[k] == h[k];
      d
  }

  /** int(str(n)) == n. */
  lemma {:induction false} DecimalRoundTrip(n: nat)
    ensures DecimalValue(Decimal(n)) == n
    decreases n
  {
    if n >= 10 {
      var d := Decimal(n);
      assert d[..|d| - 1] == Decimal(n / 10);
      DecimalRoundTrip(n / 10);
    }
  }

  /** A run of digits from p to q is covered by the greedy run from p. */
  lemma {:induction false} DigitRunCovers(s: string, p: nat, q: nat)
    requires p <= q <= |s|
    requires forall k {:trigger IsDigit(s[k])} :: p <= k < q ==> IsDigit(s[k])
    ensures DigitRun(s, p) >= q - p
    decreases q - p
  {
    if p < q {
      assert IsDigit(s[p]);
      DigitRunCovers(s, p + 1, q);
    }
  }

  /** The pattern `undo last (\d+) word` matches at i with a digit group of length n. */
  predicate NumberMatch(s: string, i: nat, n: nat) {
    && StartsAt(s, i, "undo last ")
    && 1 <= n && i + 10 + n <= |s|
    && (forall k {:trigger IsDigit(s[k])} :: i + 10 <= k < i + 10 + n ==> IsDigit(s[k]))
    && StartsAt(s, i + 10 + n, " word")
  }

  /** The digit group read as a number. */
  function GroupValue(s: string, lo: nat, hi: nat): nat
    requires lo <= hi <= |s|
    requires forall k {:trigger IsDigit(s[k])} :: lo <= k < hi ==> IsDigit(s[k])
  {
    var d := s[lo..hi];
    assert AllDigits(d) by {
      forall k | 0 <= k < |d| ensures IsDigit(d[k]) {
        assert d[k] == s[lo + k];
      }
    }
    DecimalValue(d)
  }

  /**
   * The pattern tried at one position. The greedy \d+ takes the whole digit run; giving
   * back digits never helps, because " word" cannot start on a digit.
   */
  function NumberAt(s: string, i: nat): Option<nat>
    requires i <= |s|
  {
    if StartsAt(s, i, "undo last ") then
      var n := DigitRun(s, i + 10);
      if n > 0 && StartsAt(s, i + 10 + n, " word") then Some(GroupValue(s, i + 10, i + 10 + n)) else None
    else None
  }

  /** NumberAt succeeds exactly where the pattern matches, and then reads the matched digits. */
  lemma NumberAtIsMatch(s: string, i: nat)
    requires i <= |s|
    ensures NumberAt(s, i).Some? <==> exists n :: NumberMatch(s, i, n)
    ensures forall n :: NumberMatch(s, i, n) ==> NumberAt(s, i) == Some(GroupValue(s, i + 10, i + 10 + n))
  {
    forall n | NumberMatch(s, i, n)
      ensures NumberAt(s, i) == Some(GroupValue(s, i + 10, i + 10 + n))
    {
      DigitRunCovers(s, i + 10, i + 10 + n);
      assert !IsDigit(s[i + 10 + n]) by {
        assert s[i + 10 + n] == ' ';
      }
      assert DigitRun(s, i + 10) == n;
    }
    if NumberAt(s, i).Some? {
      assert NumberMatch(s, i, DigitRun(s, i + 10));
    }
  }

  /** re.search: the leftmost position from i on where the pattern matches. */
  function SearchNumber(s: string, i: nat): Option<nat>
    requires i <= |s|
    decreases |s| - i
  {
    var r := NumberAt(s, i);
    if r.Some? then r else if i == |s| then None else SearchNumber(s, i + 1)
  }

  /** SearchNumber reports the first position from i on where NumberAt succeeds, or that none does. */
  lemma {:induction false} SearchNumberLeftmost(s: string, i: nat)
    requires i <= |s|
    ensures SearchNumber(s, i).Some? ==>
      exists j :: i <= j <= |s| && NumberAt(s, j) == SearchNumber(s, i) && forall k :: i <= k < j ==> NumberAt(s, k).None?
    ensures SearchNumber(s, i).None? ==> forall j :: i <= j <= |s| ==> NumberAt(s, j).None?
    decreases |s| - i
  {
    var r := NumberAt(s, i);
    if r.Some? {
      assert SearchNumber(s, i) == r;
    } else if i == |s| {
      assert SearchNumber(s, i) == None;
    } else {
      assert SearchNumber(s, i) == SearchNumber(s, i + 1);
      SearchNumberLeftmost(s, i + 1);
      if SearchNumber(s, i + 1).Some? {
        var j :| i + 1 <= j <= |s| && NumberAt(s, j) == SearchNumber(s, i + 1)
          && forall k :: i + 1 <= k < j ==> NumberAt(s, k).None?;
        forall k | i <= k < j
          ensures NumberAt(s, k).None?
        {
          if k == i {
            assert r.None?;
          }
        }
      } else {
        forall k | i <= k <= |s|
          ensures NumberAt(s, k).None?
        {
          if k == i {
            assert r.None?;
          }
        }
      }
    }
  }

  /** The written numbers, in the dictionary's insertion order. */
  const WordNumbers: seq<(string, nat)> := [
    ("one", 1), ("two", 2), ("three", 3), ("four", 4), ("five", 5),
    ("six", 6), ("seven", 7), ("eight", 8), ("nine", 9), ("ten", 10)
  ]

  function WrittenPhrase(word: string): string {
    "undo last " + word + " word"
  }

  /** The count of the first table entry whose phrase occurs in s (table order, not position). */
  function FirstWritten(s: string, table: seq<(string, nat)>): Option<nat>
    decreases |table|
  {
    if table == [] then None
    else if Contains(s, WrittenPhrase(table[0].0)) then Some(table[0].1)
    else FirstWritten(s, table[1..])
  }

  /** extract_word_count_from_undo on the lower-cased, stripped sentence. */
  function ExtractWordCount(lower: string): nat {
    if Contains(lower, "undo word") && !Contains(lower, "undo last") then 1
    else
      match SearchNumber(lower, 0)
      case Some(v) => v
      case None =>
        match FirstWritten(lower, WordNumbers)
        case Some(v) => v
        case None => 1
  }

  /** FirstWritten returns the count of entry j when j is the first entry whose phrase occurs. */
  lemma {:induction false} FirstWrittenFinds(s: string, table: seq<(string, nat)>, j: nat)
    requires j < |table| && Contains(s, WrittenPhrase(table[j].0))
    requires forall k :: 0 <= k < j ==> !Contains(s, WrittenPhrase(table[k].0))
    ensures FirstWritten(s, table) == Some(table[j].1)
    decreases j
  {
    if j > 0 {
      assert !Contains(s, WrittenPhrase(table[0].0));
      var t := table[1..];
      assert t[j - 1] == table[j];
      forall k | 0 <= k < j - 1 ensures !Contains(s, WrittenPhrase(t[k].0)) {
        assert t[k] == table[k + 1];
      }
      FirstWrittenFinds(s, t, j - 1);
    }
  }

  lemma PhraseNoDigit(v: string, rest: string)
    requires NoDigit(v) && NoDigit(rest)
    ensures NoDigit(WrittenPhrase(v) + rest)
  {
    var s := WrittenPhrase(v) + rest;
    forall k | 0 <= k < |s| ensures !IsDigit(s[k]) {
      if 10 <= k < 10 + |v| {
        assert s[k] == v[k - 10];
      } else if k >= 15 + |v| {
        assert s[k] == rest[k - 15 - |v|];
      }
    }
  }

  /** Without a digit anywhere, the numeric pattern matches nowhere. */
  lemma {:induction false} SearchNumberNoDigits(s: string, i: nat)
    requires i <= |s| && NoDigit(s)
    ensures SearchNumber(s, i) == None
    decreases |s| - i
  {
    var r := NumberAt(s, i);
    if StartsAt(s, i, "undo last ") {
      assert i + 10 <= |s|;
      if i + 10 < |s| {
        assert !IsDigit(s[i + 10]);
      }
      assert DigitRun(s, i + 10) == 0;
    }
    assert r == None;
    if i < |s| {
      assert SearchNumber(s, i) == SearchNumber(s, i + 1);
      SearchNumberNoDigits(s, i + 1);
    }
  }

  /** "undo last N word..." is undone N words, for every N written in decimal. */
  lemma UndoCountDigits(n: nat, rest: string)
    ensures ExtractWordCount("undo last " + Decimal(n) + " word" + rest) == n
  {
    var d := Decimal(n);
    var s := "undo last " + d + " word" + rest;
    var L := |d|;
    assert s[..10] == "undo last ";
    assert s[10..10 + L] == d;
    assert s[10 + L..15 + L] == " word";
    assert "undo last" <= s[0..];
    assert Contains(s, "undo last");
    assert StartsAt(s, 0, "undo last ");
    assert StartsAt(s, 10 + L, " word");
    forall k | 10 <= k < 10 + L ensures IsDigit(s[k]) {
      assert s[k] == d[k - 10];
    }
    assert NumberMatch(s, 0, L);
    NumberAtIsMatch(s, 0);
    assert GroupValue(s, 10, 10 + L) == DecimalValue(d);
    DecimalRoundTrip(n);
    assert SearchNumber(s, 0) == NumberAt(s, 0);
  }

  /** Where the fixed characters and the word sit in "undo last " + v + " word" + rest. */
  predicate PhraseLayout(s: string, v: string, restLen: nat) {
    && |s| == 15 + |v| + restLen
    && s[0] == 'u' && s[4] == ' ' && s[5] == 'l' && s[9] == ' ' && s[10 + |v|] == ' '
    && (forall k {:trigger v[k]} :: 0 <= k < |v| ==> s[10 + k] == v[k])
  }

  /** The only spaces of such a sentence are the three of the phrase itself. */
  predicate SpacesOnlyAt(s: string, v: string) {
    forall k {:trigger IsSpace(s[k])} :: 0 <= k < |s| && k != 4 && k != 9 && k != 10 + |v| ==> !IsSpace(s[k])
  }

  lemma PhraseLayoutOf(v: string, rest: string)
    ensures PhraseLayout(WrittenPhrase(v) + rest, v, |rest|)
    ensures NoSpace(v) && NoSpace(rest) ==> SpacesOnlyAt(WrittenPhrase(v) + rest, v)
  {
    var s := WrittenPhrase(v) + rest;
    forall k | 0 <= k < |v| ensures s[10 + k] == v[k] {
    }
    if NoSpace(v) && NoSpace(rest) {
      forall k | 0 <= k < |s| && k != 4 && k != 9 && k != 10 + |v| ensures !IsSpace(s[k]) {
        if 10 <= k < 10 + |v| {
          assert s[k] == v[k - 10];
        } else if k >= 15 + |v| {
          assert s[k] == rest[k - 15 - |v|];
        }
      }
    }
  }

  /** A phrase occurring at i inside a laid-out sentence is the sentence's own phrase. */
  lemma OnlyOccurrenceAt(s: string, v: string, restLen: nat, p: string, w: string, i: nat)
    requires PhraseLayout(s, v, restLen) && SpacesOnlyAt(s, v) && NoSpace(v)
    requires PhraseLayout(p, w, 0) && NoSpace(w)
    requires i <= |s| && p <= s[i..]
    ensures w == v
  {
    assert s[i..][0] == s[i] && s[i..][4] == s[i + 4] && s[i..][9] == s[i + 9];
    assert IsSpace(s[i + 4]) && IsSpace(s[i + 9]);
    assert i == 0;
    assert s[i..] == s;
    assert s[10 + |w|] == p[10 + |w|];
    assert IsSpace(s[10 + |w|]);
    assert |w| == |v|;
    forall k | 0 <= k < |w| ensures w[k] == v[k] {
      assert w[k] == p[10 + k] == s[10 + k] == v[k];
    }
  }

  /** In such a sentence the only written-number phrase that occurs is the one it was built from. */
  lemma PhraseOnlyOccurrence(v: string, w: string, rest: string)
    requires NoSpace(v) && NoSpace(w) && NoSpace(rest)
    requires Contains(WrittenPhrase(v) + rest, WrittenPhrase(w))
    ensures w == v
  {
    var s := WrittenPhrase(v) + rest;
    var p := WrittenPhrase(w);
    PhraseLayoutOf(v, rest);
    PhraseLayoutOf(w, "");
    assert p + "" == p;
    var i :| 0 <= i <= |s| && p <= s[i..];
    OnlyOccurrenceAt(s, v, |rest|, p, w, i);
  }

  lemma WordNumbersWords(j: nat)
    requires j < |WordNumbers|
    ensures NoSpace(WordNumbers[j].0) && NoDigit(WordNumbers[j].0)
    ensures forall k :: 0 <= k < |WordNumbers| && k != j ==> WordNumbers[k].0 != WordNumbers[j].0
  {
  }

  /** The written-number branch decides when nothing numeric matches and entry j is the first present. */
  lemma WrittenCount(s: string, j: nat)
    requires j < |WordNumbers| && SearchNumber(s, 0).None? && Contains(s, "undo last")
    requires Contains(s, WrittenPhrase(WordNumbers[j].0))
    requires forall k :: 0 <= k < j ==> !Contains(s, WrittenPhrase(WordNumbers[k].0))
    ensures ExtractWordCount(s) == WordNumbers[j].1
  {
    FirstWrittenFinds(s, WordNumbers, j);
  }

  /** "undo last three word..." is undone three words, and likewise for one..ten. */
  lemma UndoCountWritten(j: nat, rest: string)
    requires j < |WordNumbers|
    requires NoSpace(rest) && NoDigit(rest)
    ensures ExtractWordCount(WrittenPhrase(WordNumbers[j].0) + rest) == WordNumbers[j].1
  {
    var v := WordNumbers[j].0;
    var s := WrittenPhrase(v) + rest;
    WordNumbersWords(j);
    assert "undo last" <= s;
    assert Contains(s, "undo last") by {
      assert s[0..] == s;
    }
    assert Contains(s, WrittenPhrase(v)) by {
      assert s[0..] == s;
    }
    forall k | 0 <= k < j ensures !Contains(s, WrittenPhrase(WordNumbers[k].0)) {
      WordNumbersWords(k);
      if Contains(s, WrittenPhrase(WordNumbers[k].0)) {
        PhraseOnlyOccurrence(v, WordNumbers[k].0, rest);
        assert false;
      }
    }
    PhraseNoDigit(v, rest);
    SearchNumberNoDigits(s, 0);
    WrittenCount(s, j);
  }

  // ---------------------------------------------------------------------------------------
  // Classification

  datatype Command =
    | Literal
    | UndoWords(count: nat)
    | Correct(target: string, replacement: string)
    | UndoThat
    | NewLine
    | Paragraph
    | Stop
    | Plain

  /** The key every test looks at: the sentence lower-cased and stripped. */
  function Key(sentence: string): string {
    Strip(Lower(sentence))
  }

  /** The extracted correction, when both of its words are non-empty. */
  function UsableCorrection(key: string): Option<(string, string)> {
    if IsCorrectCommand(key) then
      match CorrectPattern.ExtractCorrectionWords(key)
      case Some((t, r)) => if t != [] && r != [] then Some((t, r)) else None
      case None => None
    else None
  }

  /** The position of each command in the order the tests run. */
  function Rank(c: Command): nat {
    match c
    case Literal => 0
    case UndoWords(_) => 1
    case Correct(_, _) => 2
    case UndoThat => 3
    case NewLine => 4
    case Paragraph => 5
    case Stop => 6
    case Plain => 7
  }

  /**
   * process_voice_commands' decision: each command is chosen exactly when no test before it
   * applied (its rank is not passed over) and its own test applies.
   */
  function Classify(sentence: string): (c: Command)
    ensures c.Literal? <==> ContainsAny(Key(sentence), EscapeKeywords)
    ensures c.UndoWords? <==> Rank(c) >= 1 && IsUndoWordsCommand(Key(sentence))
    ensures c.UndoWords? ==> c.count == ExtractWordCount(Key(sentence))
    ensures c.Correct? <==> Rank(c) >= 2 && UsableCorrection(Key(sentence)).Some?
    ensures c.Correct? ==> UsableCorrection(Key(sentence)) == Some((c.target, c.replacement))
    ensures c.UndoThat? <==> Rank(c) >= 3 && ContainsAny(Key(sentence), DeleteKeywords)
    ensures c.NewLine? <==> Rank(c) >= 4 && ContainsAny(Key(sentence), NewlineKeywords)
    ensures c.Paragraph? <==> Rank(c) >= 5 && ContainsAny(Key(sentence), ParagraphKeywords)
    ensures c.Stop? <==> Rank(c) >= 6 && ContainsAny(Key(sentence), StopKeywords)
  {
    var key := Key(sentence);
    if ContainsAny(key, EscapeKeywords) then Literal
    else if IsUndoWordsCommand(key) then UndoWords(ExtractWordCount(key))
    else if UsableCorrection(key).Some? then
      Correct(UsableCorrection(key).value.0, UsableCorrection(key).value.1)
    else if ContainsAny(key, DeleteKeywords) then UndoThat
    else if ContainsAny(key, NewlineKeywords) then NewLine
    else if ContainsAny(key, ParagraphKeywords) then Paragraph
    else if ContainsAny(key, StopKeywords) then Stop
    else Plain
  }

  /** The escape test is the test for "literal": the other escape keyword contains it. */
  lemma EscapeIsLiteral(key: string)
    ensures ContainsAny(key, EscapeKeywords) <==> Contains(key, "literal")
  {
    if ContainsAny(key, EscapeKeywords) {
      var k :| k in EscapeKeywords && Contains(key, k);
      ContainsPrefixOf(key, "literal", k);
    }
    assert "literal" in EscapeKeywords;
  }

  /** Saying "literal" anywhere makes the sentence plain text, whatever other command words it holds. */
  lemma LiteralWins(sentence: string)
    ensures Classify(sentence) == Literal <==> Contains(Key(sentence), "literal")
  {
    EscapeIsLiteral(Key(sentence));
  }

  /** A match always contains both words the guard looks for, so the guard never rejects a match. */
  lemma CorrectGuardImplied(key: string)
    ensures CorrectPattern.ExtractCorrectionWords(key).Some? ==> IsCorrectCommand(key)
  {
    CorrectPattern.ExtractFindsMatch(key);
    if CorrectPattern.ExtractCorrectionWords(key).Some? {
      var m :| CorrectPattern.IsMatch(key, m);
      assert "correct" <= key[m.start..];
      assert "with" <= key[m.withAt..];
    }
  }

  /** A correction that is acted on has two non-empty, stripped, single-line words taken from a match. */
  lemma CorrectionShape(sentence: string)
    requires Classify(sentence).Correct?
    ensures var c := Classify(sentence);
      && c.target != [] && c.replacement != []
      && '\n' !in c.target && '\n' !in c.replacement
      && CorrectPattern.Stripped(c.target) && CorrectPattern.Stripped(c.replacement)
    ensures exists m :: CorrectPattern.IsMatch(Key(sentence), m)
  {
    CorrectPattern.ExtractFindsMatch(Key(sentence));
  }

  predicate IsLowerCase(s: string) {
    forall i :: 0 <= i < |s| ==> !('A' <= s[i] <= 'Z')
  }

  lemma LowerOfLowerCase(s: string)
    requires IsLowerCase(s)
    ensures Lower(s) == s
  {
  }

  /**
   * Saying "correct X with Y" in lower case, with a one-word X and a Y that ends on neither
   * whitespace nor punctuation, is the command Correct(X, Y) unless an earlier test applies.
   */
  lemma ClassifyCorrection(x: string, y: string)
    requires x != [] && NoSpace(x) && IsLowerCase(x)
    requires y != [] && '\n' !in y && IsLowerCase(y)
    requires !IsSpace(y[0]) && !IsSpace(y[|y| - 1]) && !CorrectPattern.IsPunct(y[|y| - 1])
    requires var s := "correct " + x + " with " + y; !ContainsAny(s, EscapeKeywords) && !IsUndoWordsCommand(s)
    ensures Classify("correct " + x + " with " + y) == Correct(x, y)
  {
    var s := "correct " + x + " with " + y;
    assert IsLowerCase(s) by {
      forall i | 0 <= i < |s| ensures !('A' <= s[i] <= 'Z') {
        if 8 <= i < 8 + |x| {
          assert s[i] == x[i - 8];
        } else if i >= 14 + |x| {
          assert s[i] == y[i - 14 - |x|];
        }
      }
    }
    LowerOfLowerCase(s);
    assert s[|s| - 1] == y[|y| - 1];
    StripKeeps(s);
    CorrectPattern.CorrectionRoundTrip(x, y);
    CorrectGuardImplied(s);
  }
}
