/**
 * SpeechToTextService as an object: the buffer fields the source updates in place, the
 * session type and the tool oracle, and two traces standing for the outside world: every
 * typing request made and every command line run. Each method is proved to do what the
 * matching transition of Transcript describes.
 */
module Service {
  import opened Common
  import opened Text
  import opened Typing
  import opened VoiceCommands
  import opened Transcript

  class SpeechToTextService {
    var parts: seq<string>
    var currentText: string
    var lastWasLineBreak: bool
    var lastSentence: string
    var stopRequested: bool
    var realTimeTyping: bool
    /** The typing requests made so far, in order. */
    var requests: seq<Request>
    /** The command lines run for each request, in order. */
    var attempts: seq<seq<CommandLine>>
    /** XDG_SESSION_TYPE, or None when it is unset. */
    const session: Option<string>
    /** Whether running a command line succeeds. */
    const runs: CommandLine -> bool

    /** The buffer part of the state, as a value. */
    function State(): Editor
      reads this
    {
      Editor(parts, currentText, lastWasLineBreak, lastSentence, stopRequested, realTimeTyping)
    }

    /** The command lines run are exactly those the requests made so far lead to. */
    predicate Valid()
      reads this
    {
      && |attempts| == |requests|
      && forall i :: 0 <= i < |requests| ==> attempts[i] == RequestAttempts(session, requests[i], runs)
    }

    constructor(session: Option<string>, runs: CommandLine -> bool)
      ensures Valid() && State() == Initial() && requests == []
      ensures this.session == session && this.runs == runs
    {
      parts := [];
      currentText := "";
      lastWasLineBreak := false;
      lastSentence := "";
      stopRequested := false;
      realTimeTyping := false;
      requests := [];
      attempts := [];
      this.session := session;
      this.runs := runs;
    }

    /** type_key_combination: the tools that can type the keys, in the session's order, until one succeeds. */
    method TypeKeyCombination(keys: seq<string>)
      requires Valid()
      modifies this
      ensures Valid() && State() == old(State()) && requests == old(requests) + [Keys(keys)]
    {
      var tried, ok := TryInOrder(KeyCommands(session, keys), runs);
      requests := requests + [Keys(keys)];
      attempts := attempts + [tried];
    }

    /** type_text: nothing for empty text; otherwise the text tools in the session's order until one succeeds. */
    method TypeText(text: string)
      requires Valid()
      modifies this
      ensures Valid() && State() == old(State()) && requests == old(requests) + [Text(text)]
    {
      requests := requests + [Text(text)];
      if text == [] {
        attempts := attempts + [[]];
        return;
      }
      var tried, ok := TryInOrder(TextCommands(session, text), runs);
      attempts := attempts + [tried];
    }

    /** type_backspaces: count BackSpace presses, one at a time. */
    method TypeBackspaces(count: nat)
      requires Valid()
      modifies this
      ensures Valid() && State() == old(State()) && requests == old(requests) + Backspaces(count)
    {
      var i := 0;
      while i < count
        invariant 0 <= i <= count
        invariant Valid() && State() == old(State()) && requests == old(requests) + Backspaces(i)
      {
        TypeKeyCombination(BackSpace);
        assert Backspaces(i) + [Keys(BackSpace)] == Backspaces(i + 1);
        i := i + 1;
      }
    }

    method HandleDelete()
      requires Valid()
      modifies this
      ensures Valid()
      ensures State() == DeleteStep(old(State())).editor
      ensures requests == old(requests) + DeleteStep(old(State())).out
    {
      if parts != [] {
        var removed := parts[|parts| - 1];
        parts := parts[..|parts| - 1];
        if removed == "\n" {
          if realTimeTyping {
            TypeKeyCombination(BackSpace);
          }
        } else if removed == "\n\n" {
          if realTimeTyping {
            TypeKeyCombination(BackSpace);
            TypeKeyCombination(BackSpace);
          }
        } else {
          if realTimeTyping {
            TypeBackspaces(|removed|);
          }
        }
        currentText := TextOf(parts);
      }
    }

    method HandleNewline()
      requires Valid()
      modifies this
      ensures Valid()
      ensures State() == NewlineStep(old(State())).editor
      ensures requests == old(requests) + NewlineStep(old(State())).out
    {
      if realTimeTyping {
        TypeKeyCombination(ShiftReturn);
      }
    }

    method HandleParagraph()
      requires Valid()
      modifies this
      ensures Valid()
      ensures State() == ParagraphStep(old(State())).editor
      ensures requests == old(requests) + ParagraphStep(old(State())).out
    {
      if realTimeTyping {
        TypeKeyCombination(ShiftReturn);
        TypeKeyCombination(ShiftReturn);
      }
    }

    method HandleStop()
      requires Valid()
      modifies this
      ensures Valid()
      ensures State() == StopStep(old(State())).editor
      ensures requests == old(requests) + StopStep(old(State())).out
    {
      stopRequested := true;
    }

    method HandleUndoWords(wordCount: nat)
      requires Valid()
      modifies this
      ensures Valid()
      ensures State() == UndoWordsStep(old(State()), wordCount).editor
      ensures requests == old(requests) + UndoWordsStep(old(State()), wordCount).out
    {
      if realTimeTyping {
        var i := 0;
        while i < wordCount
          invariant 0 <= i <= wordCount
          invariant Valid() && State() == old(State())
          invariant requests == old(requests) + Selections(i)
        {
          TypeKeyCombination(SelectWordLeft);
          assert Selections(i) + [Keys(SelectWordLeft)] == Selections(i + 1);
          i := i + 1;
        }
        TypeKeyCombination(BackSpace);
        assert requests == old(requests) + (Selections(wordCount) + [Keys(BackSpace)]);
      }
    }

    method HandleCorrect(target: string, replacement: string)
      requires Valid()
      modifies this
      ensures Valid()
      ensures State() == CorrectStep(old(State()), target, replacement).editor
      ensures requests == old(requests) + CorrectStep(old(State()), target, replacement).out
    {
      if parts == [] {
        return;
      }
      var last := parts[|parts| - 1];
      if last == "\n" || last == "\n\n" {
        return;
      }
      var corrected := PyReplace(last, target, replacement);
      corrected := PyReplace(corrected, Capitalize(target), Capitalize(replacement));
      ReplaceLastPart(corrected);
    }

    /** The end of handle_correct_command: the last part retyped as fixed, put in its place, the text rebuilt. */
    method ReplaceLastPart(fixed: string)
      requires Valid() && parts != []
      modifies this
      ensures Valid()
      ensures State() == ReplaceLast(old(State()), fixed).editor
      ensures requests == old(requests) + ReplaceLast(old(State()), fixed).out
    {
      ghost var r0 := requests;
      var last := parts[|parts| - 1];
      if realTimeTyping {
        TypeBackspaces(|last|);
        ghost var r1 := requests;
        TypeText(fixed);
        assert requests == r1 + [Text(fixed)];
        assert r0 + Backspaces(|last|) + [Text(fixed)] == r0 + (Backspaces(|last|) + [Text(fixed)]);
      }
      parts := parts[..|parts| - 1] + [fixed];
      currentText := TextOf(parts);
      lastSentence := Strip(fixed);
    }

    /** process_voice_commands: the tests in their priority order, each running its handler. */
    method ProcessVoiceCommands(sentence: string) returns (result: Option<string>)
      requires Valid()
      modifies this
      ensures Valid()
      ensures State() == Process(old(State()), sentence).editor
      ensures requests == old(requests) + Process(old(State()), sentence).out
      ensures result == Process(old(State()), sentence).result
    {
      ghost var c := Classify(sentence);
      var key := Strip(Lower(sentence));
      assert key == Key(sentence);
      if ContainsAny(key, EscapeKeywords) {
        assert c == Literal;
        return Some(sentence);
      }
      if IsUndoWordsCommand(key) {
        var wordCount := ExtractWordCount(key);
        assert c == UndoWords(wordCount);
        HandleUndoWords(wordCount);
        return None;
      }
      if IsCorrectCommand(key) {
        var words := CorrectPattern.ExtractCorrectionWords(key);
        if words.Some? && words.value.0 != [] && words.value.1 != [] {
          assert c == Correct(words.value.0, words.value.1);
          HandleCorrect(words.value.0, words.value.1);
          return None;
        }
      }
      assert UsableCorrection(key).None?;
      if ContainsAny(key, DeleteKeywords) {
        assert c == UndoThat;
        HandleDelete();
        return None;
      }
      if ContainsAny(key, NewlineKeywords) {
        assert c == NewLine;
        HandleNewline();
        return Some("\n");
      }
      if ContainsAny(key, ParagraphKeywords) {
        assert c == Paragraph;
        HandleParagraph();
        return Some("\n\n");
      }
      if ContainsAny(key, StopKeywords) {
        assert c == Stop;
        HandleStop();
        return None;
      }
      assert c == Plain;
      lastSentence := sentence;
      return Some(sentence);
    }

    /** The final-transcript branch of on_message: run the commands, then add what they hand back. */
    method OnMessage(sentence: string, isFinal: bool)
      requires Valid()
      modifies this
      ensures Valid()
      ensures State() == Transcript.OnMessage(old(State()), sentence, isFinal).editor
      ensures requests == old(requests) + Transcript.OnMessage(old(State()), sentence, isFinal).out
    {
      if sentence != [] && isFinal {
        ghost var r0 := requests;
        ghost var p := Process(State(), sentence);
        var processed := ProcessVoiceCommands(sentence);
        if processed.Some? {
          ghost var a := Append(p.editor, processed.value);
          AppendResult(processed.value);
          assert requests == r0 + p.out + a.out;
          assert r0 + p.out + a.out == r0 + (p.out + a.out);
        }
      }
    }

    /** The end of on_message: a processed sentence added to the parts, spaced and typed when it is text. */
    method AppendResult(r: string)
      requires Valid()
      modifies this
      ensures Valid()
      ensures State() == Append(old(State()), r).editor
      ensures requests == old(requests) + Append(old(State()), r).out
    {
      if r == "\n" || r == "\n\n" {
        parts := parts + [r];
        lastWasLineBreak := true;
      } else {
        var prefix := if currentText != [] && !lastWasLineBreak then " " else "";
        var t := prefix + r;
        parts := parts + [t];
        currentText := currentText + t;
        lastWasLineBreak := false;
        if realTimeTyping {
          TypeText(t);
        }
      }
    }

    /** The flags start_streaming sets before it listens. */
    method BeginStreaming(typing: bool)
      modifies this
      ensures State() == Transcript.BeginStreaming(old(State()), typing)
      ensures requests == old(requests) && attempts == old(attempts)
    {
      realTimeTyping := typing;
      stopRequested := false;
    }

    /** The reset before each round of the continuous mode. */
    method ResetTranscript()
      modifies this
      ensures State() == Reset(old(State()))
      ensures requests == old(requests) && attempts == old(attempts)
    {
      parts := [];
      currentText := "";
    }

    /** What start_streaming returns once streaming ends. */
    method FinalTranscription() returns (r: Option<string>)
      ensures r == Transcript.FinalTranscription(State())
    {
      var t := Strip(currentText);
      r := if t == [] then None else Some(t);
    }
  }
}
