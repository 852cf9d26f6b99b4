/**
 * The voice-command editing buffer as a value: the transcript parts, the text derived from
 * them, the flags, and what each handler and the final-transcript branch do to them. Every
 * transition also yields the typing requests it makes, which exist only while real-time
 * typing is on.
 */
module Transcript {
  import opened Common
  import opened Text
  import opened Typing
  import opened VoiceCommands

  /** The two formatting parts: a line break and a paragraph break. */
  predicate IsMarker(p: string) {
    p == "\n" || p == "\n\n"
  }

  /** "".join(part for part in parts if part not in ["\n", "\n\n"]). */
  function TextOf(parts: seq<string>): string
    decreases |parts|
  {
    if parts == [] then []
    else TextOf(parts[..|parts| - 1]) + (if IsMarker(parts[|parts| - 1]) then [] else parts[|parts| - 1])
  }

  lemma TextOfSnoc(parts: seq<string>, p: string)
    ensures TextOf(parts + [p]) == TextOf(parts) + (if IsMarker(p) then [] else p)
  {
    assert (parts + [p])[..|parts|] == parts;
  }

  datatype Editor = Editor(
    parts: seq<string>,
    currentText: string,
    lastWasLineBreak: bool,
    lastSentence: string,
    stopRequested: bool,
    realTimeTyping: bool)

  /** The buffer's invariant: current_text is the text of the non-marker parts, in order. */
  predicate Consistent(e: Editor) {
    e.currentText == TextOf(e.parts)
  }

  /** The state __init__ leaves. */
  function Initial(): (e: Editor)
    ensures Consistent(e) && e.parts == [] && !e.stopRequested && !e.realTimeTyping
  {
    Editor([], "", false, "", false, false)
  }

  /** A transition's new state and the typing requests it makes, in order. */
  datatype Step = Step(editor: Editor, out: seq<Request>)

  /** Only while real-time typing is on does a handler type anything. */
  function WhenTyping(e: Editor, rs: seq<Request>): seq<Request> {
    if e.realTimeTyping then rs else []
  }

  const BackSpace: seq<string> := ["BackSpace"]
  const SelectWordLeft: seq<string> := ["ctrl", "shift", "Left"]
  const ShiftReturn: seq<string> := ["shift", "Return"]

  /** type_backspaces(n): n separate BackSpace combinations. */
  function Backspaces(n: nat): (rs: seq<Request>)
    ensures |rs| == n && forall i :: 0 <= i < n ==> rs[i] == Keys(BackSpace)
  {
    seq(n, i => Keys(BackSpace))
  }

  /** n separate word selections to the left (ctrl+shift+Left). */
  function Selections(n: nat): (rs: seq<Request>)
    ensures |rs| == n && forall i :: 0 <= i < n ==> rs[i] == Keys(SelectWordLeft)
  {
    seq(n, i => Keys(SelectWordLeft))
  }

  /** The parts with their text rebuilt, the source's rebuild of current_text. */
  function Rebuilt(e: Editor, parts: seq<string>): (r: Editor)
    ensures Consistent(r) && r.parts == parts
  {
    e.(parts := parts, currentText := TextOf(parts))
  }

  /**
   * handle_delete_command: with no parts nothing happens; otherwise the last part is
   * removed, the text rebuilt, and the removed part erased with BackSpace presses: one for a
   * line break, two for a paragraph break, its length for text.
   */
  function DeleteStep(e: Editor): (r: Step)
    ensures e.parts == [] ==> r == Step(e, [])
    ensures e.parts != [] ==>
      var removed := e.parts[|e.parts| - 1];
      && r.editor == Rebuilt(e, e.parts[..|e.parts| - 1])
      && r.out == WhenTyping(e, Backspaces(|removed|))
  {
    if e.parts == [] then Step(e, [])
    else
      var removed := e.parts[|e.parts| - 1];
      var keys :=
        if removed == "\n" then [Keys(BackSpace)]
        else if removed == "\n\n" then [Keys(BackSpace), Keys(BackSpace)]
        else Backspaces(|removed|);
      Step(Rebuilt(e, e.parts[..|e.parts| - 1]), WhenTyping(e, keys))
  }

  /** Deleting a part takes exactly its characters off the end of the text; a marker leaves the text as it was. */
  lemma DeleteShortensText(e: Editor)
    requires Consistent(e) && e.parts != []
    ensures var removed := e.parts[|e.parts| - 1];
      e.currentText == DeleteStep(e).editor.currentText + (if IsMarker(removed) then [] else removed)
    ensures |DeleteStep(e).editor.parts| == |e.parts| - 1
    ensures forall i :: 0 <= i < |e.parts| - 1 ==> DeleteStep(e).editor.parts[i] == e.parts[i]
  {
  }

  /** handle_undo_words_command: n word selections then one BackSpace; the buffer is untouched. */
  function UndoWordsStep(e: Editor, n: nat): (r: Step)
    ensures r.editor == e
    ensures e.realTimeTyping ==>
      && |r.out| == n + 1 && r.out[n] == Keys(BackSpace)
      && forall i :: 0 <= i < n ==> r.out[i] == Keys(SelectWordLeft)
    ensures !e.realTimeTyping ==> r.out == []
  {
    Step(e, WhenTyping(e, Selections(n) + [Keys(BackSpace)]))
  }

  /** Python's s.replace(target, replacement), including an empty target (the replacement put around every character). */
  function PyReplace(s: string, target: string, replacement: string): string {
    if target == [] then InsertEverywhere(s, replacement) else Replace(s, target, replacement)
  }

  function InsertEverywhere(s: string, sep: string): (r: string)
    ensures |r| == |s| + (|s| + 1) * |sep|
    decreases |s|
  {
    if s == [] then sep else sep + [s[0]] + InsertEverywhere(s[1..], sep)
  }

  /** The last part with the correction applied: as spoken, then capitalized. */
  function Corrected(last: string, target: string, replacement: string): string {
    PyReplace(PyReplace(last, target, replacement), Capitalize(target), Capitalize(replacement))
  }

  /**
   * The end of handle_correct_command once the corrected part is known: the last part is
   * replaced by it, the text rebuilt, the stripped correction remembered as the last
   * sentence, and the old part erased and the new one typed.
   */
  function ReplaceLast(e: Editor, fixed: string): (r: Step)
    requires e.parts != []
    ensures Consistent(r.editor) && r.editor.lastSentence == Strip(fixed)
    ensures r.editor.parts == e.parts[..|e.parts| - 1] + [fixed]
    ensures r.editor == Rebuilt(e, r.editor.parts).(lastSentence := Strip(fixed))
  {
    Step(Rebuilt(e, e.parts[..|e.parts| - 1] + [fixed]).(lastSentence := Strip(fixed)),
         WhenTyping(e, Backspaces(|e.parts[|e.parts| - 1]|) + [Text(fixed)]))
  }

  /**
   * handle_correct_command: nothing happens without parts or when the last part is a marker;
   * otherwise only the last part is replaced by its corrected form.
   */
  function CorrectStep(e: Editor, target: string, replacement: string): (r: Step)
    ensures e.parts == [] || IsMarker(e.parts[|e.parts| - 1]) ==> r == Step(e, [])
    ensures e.parts != [] && !IsMarker(e.parts[|e.parts| - 1]) ==>
      var last := e.parts[|e.parts| - 1];
      var fixed := Corrected(last, target, replacement);
      && r.editor == Rebuilt(e, e.parts[..|e.parts| - 1] + [fixed]).(lastSentence := Strip(fixed))
      && r.out == WhenTyping(e, Backspaces(|last|) + [Text(fixed)])
  {
    if e.parts == [] || IsMarker(e.parts[|e.parts| - 1]) then Step(e, [])
    else ReplaceLast(e, Corrected(e.parts[|e.parts| - 1], target, replacement))
  }

  /** A correction rewrites the end of the text and nothing before it. */
  lemma CorrectRewritesLastPart(e: Editor, target: string, replacement: string)
    requires Consistent(e) && e.parts != [] && !IsMarker(e.parts[|e.parts| - 1])
    ensures var n := |e.parts|;
      var fixed := Corrected(e.parts[n - 1], target, replacement);
      && e.currentText == TextOf(e.parts[..n - 1]) + e.parts[n - 1]
      && CorrectStep(e, target, replacement).editor.currentText
        == TextOf(e.parts[..n - 1]) + (if IsMarker(fixed) then [] else fixed)
      && |CorrectStep(e, target, replacement).editor.parts| == n
      && forall i :: 0 <= i < n - 1 ==> CorrectStep(e, target, replacement).editor.parts[i] == e.parts[i]
  {
    TextOfSnoc(e.parts[..|e.parts| - 1], Corrected(e.parts[|e.parts| - 1], target, replacement));
  }

  /** Correcting a word that occurs in neither form leaves the parts as they were. */
  lemma CorrectAbsentWord(e: Editor, target: string, replacement: string)
    requires e.parts != [] && target != []
    requires var last := e.parts[|e.parts| - 1];
      !Contains(last, target) && !Contains(last, Capitalize(target))
    ensures CorrectStep(e, target, replacement).editor.parts == e.parts
  {
    var last := e.parts[|e.parts| - 1];
    ReplaceAbsent(last, target, replacement);
    ReplaceAbsent(last, Capitalize(target), Capitalize(replacement));
    assert e.parts[..|e.parts| - 1] + [last] == e.parts;
  }

  /** Correcting a word with itself leaves the parts as they were. */
  lemma CorrectWithItself(e: Editor, w: string)
    requires e.parts != [] && w != []
    ensures CorrectStep(e, w, w).editor.parts == e.parts
  {
    var last := e.parts[|e.parts| - 1];
    ReplaceSelf(last, w);
    ReplaceSelf(last, Capitalize(w));
    assert e.parts[..|e.parts| - 1] + [last] == e.parts;
  }

  /** handle_newline_command: a shift+Return; the buffer is untouched (the marker is added by the caller). */
  function NewlineStep(e: Editor): (r: Step)
    ensures r.editor == e && r.out == WhenTyping(e, [Keys(ShiftReturn)])
  {
    Step(e, WhenTyping(e, [Keys(ShiftReturn)]))
  }

  /** handle_paragraph_command: two shift+Returns. */
  function ParagraphStep(e: Editor): (r: Step)
    ensures r.editor == e && r.out == WhenTyping(e, [Keys(ShiftReturn), Keys(ShiftReturn)])
  {
    Step(e, WhenTyping(e, [Keys(ShiftReturn), Keys(ShiftReturn)]))
  }

  /** handle_stop_command: only the stop flag changes. */
  function StopStep(e: Editor): (r: Step)
    ensures r.editor == e.(stopRequested := true) && r.out == []
  {
    Step(e.(stopRequested := true), [])
  }

  /** What process_voice_commands leaves: the new state, its requests and the sentence to add, if any. */
  datatype Processed = Processed(editor: Editor, out: seq<Request>, result: Option<string>)

  function Process(e: Editor, sentence: string): (p: Processed)
    ensures Classify(sentence).Literal? ==> p == Processed(e, [], Some(sentence))
    ensures Classify(sentence).Plain? ==> p == Processed(e.(lastSentence := sentence), [], Some(sentence))
    ensures Classify(sentence).UndoWords? ==>
      var s := UndoWordsStep(e, Classify(sentence).count); p == Processed(s.editor, s.out, None)
    ensures Classify(sentence).Correct? ==>
      var c := Classify(sentence);
      var s := CorrectStep(e, c.target, c.replacement);
      p == Processed(s.editor, s.out, None)
    ensures Classify(sentence).UndoThat? ==> p == Processed(DeleteStep(e).editor, DeleteStep(e).out, None)
    ensures Classify(sentence).NewLine? ==> p == Processed(e, NewlineStep(e).out, Some("\n"))
    ensures Classify(sentence).Paragraph? ==> p == Processed(e, ParagraphStep(e).out, Some("\n\n"))
    ensures Classify(sentence).Stop? ==> p == Processed(e.(stopRequested := true), [], None)
  {
    match Classify(sentence)
    case Literal => Processed(e, [], Some(sentence))
    case UndoWords(n) => var s := UndoWordsStep(e, n); Processed(s.editor, s.out, None)
    case Correct(t, r) => var s := CorrectStep(e, t, r); Processed(s.editor, s.out, None)
    case UndoThat => var s := DeleteStep(e); Processed(s.editor, s.out, None)
    case NewLine => var s := NewlineStep(e); Processed(s.editor, s.out, Some("\n"))
    case Paragraph => var s := ParagraphStep(e); Processed(s.editor, s.out, Some("\n\n"))
    case Stop => var s := StopStep(e); Processed(s.editor, s.out, None)
    case Plain => Processed(e.(lastSentence := sentence), [], Some(sentence))
  }

  /** The space put before regular text: one exactly when there is text and no line break just before. */
  function SpacePrefix(e: Editor): string {
    if e.currentText != [] && !e.lastWasLineBreak then " " else ""
  }

  /** Adding a processed sentence: a marker goes in as it is, text with its spacing. */
  function Append(e: Editor, r: string): (s: Step)
    ensures Consistent(e) ==> Consistent(s.editor)
    ensures s.editor.parts == e.parts + [if IsMarker(r) then r else SpacePrefix(e) + r]
    ensures s.editor.lastWasLineBreak <==> IsMarker(r)
    ensures s.editor == e.(parts := s.editor.parts, currentText := s.editor.currentText,
                            lastWasLineBreak := s.editor.lastWasLineBreak)
    ensures IsMarker(r) ==> s.editor.currentText == e.currentText && s.out == []
    ensures !IsMarker(r) ==> s.out == WhenTyping(e, [Text(SpacePrefix(e) + r)])
  {
    if IsMarker(r) then
      TextOfSnoc(e.parts, r);
      Step(e.(parts := e.parts + [r], lastWasLineBreak := true), [])
    else
      var t := SpacePrefix(e) + r;
      SpacedTextIsNoMarker(e, r);
      TextOfSnoc(e.parts, t);
      Step(e.(parts := e.parts + [t], currentText := e.currentText + t, lastWasLineBreak := false),
           WhenTyping(e, [Text(t)]))
  }

  /** The final-transcript branch of on_message; empty and interim sentences change nothing. */
  function OnMessage(e: Editor, sentence: string, isFinal: bool): (s: Step)
    ensures sentence == [] || !isFinal ==> s == Step(e, [])
  {
    if sentence == [] || !isFinal then Step(e, [])
    else
      var p := Process(e, sentence);
      match p.result
      case None => Step(p.editor, p.out)
      case Some(r) => var a := Append(p.editor, r); Step(a.editor, p.out + a.out)
  }

  /** What start_streaming hands back: the stripped text, or None when that is empty. */
  function FinalTranscription(e: Editor): (r: Option<string>)
    ensures r.None? <==> Strip(e.currentText) == []
    ensures r.Some? ==> r.value != [] && r.value == Strip(e.currentText)
  {
    var t := Strip(e.currentText);
    if t == [] then None else Some(t)
  }

  /** The state start_streaming sets before listening: typing as asked, no stop pending. */
  function BeginStreaming(e: Editor, typing: bool): (r: Editor)
    ensures r.realTimeTyping == typing && !r.stopRequested
    ensures r.parts == e.parts && (Consistent(e) ==> Consistent(r))
  {
    e.(realTimeTyping := typing, stopRequested := false)
  }

  /** The reset before each round of the continuous mode. */
  function Reset(e: Editor): (r: Editor)
    ensures Consistent(r) && r.parts == [] && r.currentText == []
    ensures r.lastWasLineBreak == e.lastWasLineBreak && r.lastSentence == e.lastSentence
  {
    e.(parts := [], currentText := [])
  }

  // ---------------------------------------------------------------------------------------
  // Properties across the transitions

  /** Regular text never looks like a marker, whatever its spacing. */
  lemma SpacedTextIsNoMarker(e: Editor, r: string)
    requires !IsMarker(r)
    ensures !IsMarker(SpacePrefix(e) + r)
  {
    if SpacePrefix(e) == " " {
      assert (SpacePrefix(e) + r)[0] == ' ';
    } else {
      assert SpacePrefix(e) + r == r;
    }
  }

  /** Each handler keeps current_text equal to the text of the parts. */
  lemma ProcessKeepsConsistent(e: Editor, sentence: string)
    requires Consistent(e)
    ensures Consistent(Process(e, sentence).editor)
  {
  }

  /** on_message keeps current_text equal to the text of the non-marker parts. */
  lemma OnMessageKeepsConsistent(e: Editor, sentence: string, isFinal: bool)
    requires Consistent(e)
    ensures Consistent(OnMessage(e, sentence, isFinal).editor)
  {
    if sentence != [] && isFinal {
      var p := Process(e, sentence);
      ProcessKeepsConsistent(e, sentence);
      if p.result.Some? {
        var r := p.result.value;
        if IsMarker(r) {
          TextOfSnoc(p.editor.parts, r);
        } else {
          SpacedTextIsNoMarker(p.editor, r);
          TextOfSnoc(p.editor.parts, SpacePrefix(p.editor) + r);
        }
      }
    }
  }

  /** A sentence with no command word is added with its spacing and becomes the last sentence. */
  lemma PlainSentenceAppended(e: Editor, sentence: string)
    requires sentence != [] && Classify(sentence).Plain? && !IsMarker(sentence)
    ensures var s := OnMessage(e, sentence, true);
      var t := SpacePrefix(e) + sentence;
      && s.editor.parts == e.parts + [t]
      && s.editor.currentText == e.currentText + t
      && !s.editor.lastWasLineBreak
      && s.editor.lastSentence == sentence
      && s.out == WhenTyping(e, [Text(t)])
  {
  }

  /** After a line break, the next text is added without a leading space. */
  lemma NoSpaceAfterLineBreak(e: Editor, sentence: string)
    requires sentence != [] && Classify(sentence).NewLine?
    ensures var after := OnMessage(e, sentence, true).editor;
      after.lastWasLineBreak && after.parts == e.parts + ["\n"] && after.currentText == e.currentText
      && SpacePrefix(after) == ""
  {
  }

  /**
   * "undo that" right after a sentence was added takes exactly that sentence back: the parts
   * and the text are as before, and as many BackSpaces are pressed as characters were typed.
   */
  lemma DeleteUndoesAppend(e: Editor, r: string)
    requires Consistent(e) && !IsMarker(r)
    ensures var a := Append(e, r);
      var d := DeleteStep(a.editor);
      && d.editor.parts == e.parts && d.editor.currentText == e.currentText
      && (e.realTimeTyping ==> a.out == [Text(SpacePrefix(e) + r)] && |d.out| == |SpacePrefix(e) + r|)
  {
    var t := SpacePrefix(e) + r;
    SpacedTextIsNoMarker(e, r);
    var parts := Append(e, r).editor.parts;
    assert parts == e.parts + [t];
    assert parts[..|parts| - 1] == e.parts;
  }
}
