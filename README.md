# Voice typing: the editing buffer, the hotkey toggle and the install self-test

This project models the core of a Linux voice-typing tool.

- **Editing buffer.** Final transcripts from the speech service are turned into typed text.
  Spoken commands edit what has been typed: "undo that", "undo last N words",
  "correct X with Y", "new line", "new paragraph", "stop recording". Words such as
  "literally" switch command handling off for a sentence.
- **Hotkey toggle.** Holding Super and Space starts or stops recording.
- **Install self-test.** The installation script probes the system tools, checks the
  API key and decides the exit status.

The model follows the code of `speech_to_text.py`, `speech_hotkey.py` and
`test_installation.py`. The repository's environment installer and its desktop integration
are not part of this model.

The modules:

- `Common`: `Option`, and the session type read from `XDG_SESSION_TYPE`. An unset
  variable reads as `x11`.
- `Text`: the Python string operations the code relies on:
  - `lower` and `capitalize`, with ASCII case mapping only;
  - `strip` and `in`, with whitespace being the full `str.isspace` set, non-ASCII spaces
    included;
  - `str.replace`, together with its split/join characterisation;
  - `str.split` on one character.
- `CorrectPattern`: the regular expression of `extract_correction_words`.
  - It is modelled as the backtracking search Python's `re.search` performs: greedy `\s+`,
    the two lazy groups `(.+?)`, and the closing group `(?:\s*[.!?]*\s*$|$)`. `\s` is the
    same whitespace set as `strip` uses.
  - The search is proved to succeed exactly when the pattern matches somewhere (read
    declaratively), to return a match, and to return one that starts leftmost.
  - Which group boundaries the backtracking picks among the matches at that start is defined
    only by the search itself.
- `VoiceCommands`: the per-sentence tests.
  - the keyword lists;
  - the `undo last (\d+) word` search and the written-number fallback;
  - the correction guard;
  - `Classify`, the first applicable command in the order `process_voice_commands` tests them.
- `Typing`: how typing requests become command lines.
  - the key mappings for xdotool, ydotool and wtype;
  - the session-dependent tool order for key combinations and for text;
  - the "try each until one succeeds" loop.
  - Running a command line is an oracle, `runs: CommandLine -> bool`: success means exit
    status 0, failure covers a non-zero status and a missing program.
- `Transcript`: the buffer as a value (`Editor`: the transcription parts, the current text,
  the line-break flag, the last sentence, the stop flag, the real-time-typing flag).
  - Each handler is a transition returning the new buffer and the typing requests it makes.
- `Service`: `SpeechToTextService` as a class whose fields are the buffer.
  - It also keeps two traces, `requests` and the command lines run per request.
  - Every method is proved to perform exactly the matching `Transcript` transition.
  - `Valid()` ties the command lines run to what the requests and the oracle determine.
- `Hotkey`: the held-key set and the recording flag, as pure transitions and as the class
  `HotkeyService`. The notifications and the recording thread are recorded as effects.
  The thread's own clearing of the flag is a separate step, and the toggle as the code
  stands (the thread gives up whenever `import pyaudio` succeeds) is modelled beside the
  intended one.
- `InstallCheck`: the tool list per session, the probe verdict, the API-key test and the
  exit decision over the three tests.

## Model

| member | source | states |
|---|---|---|
| Text.Lower | speech_to_text.py:168 | same length; each character lowered by ASCII case mapping, others kept |
| Text.Capitalize | speech_to_text.py:339-340 | the first character upper-cased and the rest lower-cased, as `str.capitalize` |
| Text.Strip | speech_to_text.py:168 | the result is the input minus its leading and trailing whitespace runs; it neither starts nor ends with whitespace |
| Text.StripKeeps | speech_to_text.py:302-303 | a string already without outer whitespace is its own strip |
| Text.ReplaceIsJoinOfSplit | speech_to_text.py:339-340 | `s.replace(p, r)` equals `r.join(s.split(p))` for a non-empty pattern |
| Text.ReplaceSelf | speech_to_text.py:339-340 | replacing a pattern with itself gives the string back |
| Text.ReplaceAbsent | speech_to_text.py:339-340 | replacing an absent pattern changes nothing |
| Text.JoinOfSplit | speech_to_text.py:405-410 | joining the pieces of a split with the separator gives the string back |
| Text.SplitOfJoin | speech_to_text.py:405-410 | splitting the `+`-join of pieces without the separator gives the pieces back |
| Text.Contains | speech_to_text.py:171 | Python's `sub in s`: some position of s starts with sub; `ContainsPrefixOf` and `ContainsInTail` are proved about it |
| Text.ContainsAny | speech_to_text.py:171 | `any(k in s for k in keys)`: some keyword of the list occurs; `VoiceCommands.EscapeIsLiteral` reduces the escape list to one word |
| Text.Replace | speech_to_text.py:339-340 | `str.replace` for a non-empty pattern, leftmost and non-overlapping; `ReplaceIsJoinOfSplit`, `ReplaceSelf` and `ReplaceAbsent` state what it does |
| CorrectPattern.TailMatchesIsSplit | speech_to_text.py:300 | the greedy test of the closing group succeeds at a position iff some split into whitespace, `.!?` punctuation and whitespace reaches the end |
| CorrectPattern.MatchAtSound | speech_to_text.py:300 | a match found by backtracking at a position satisfies the pattern and starts there |
| CorrectPattern.MatchAtComplete | speech_to_text.py:300 | wherever the pattern matches, the backtracking attempt at that start succeeds |
| CorrectPattern.SearchFindsLeftmost | speech_to_text.py:300 | `re.search` finds something iff the pattern matches anywhere; what it finds is a match; no match starts further left |
| CorrectPattern.MatchAt | speech_to_text.py:300 | the backtracking attempt at one start; `MatchAtSound` and `MatchAtComplete` tie it to the pattern |
| CorrectPattern.SearchFrom | speech_to_text.py:300 | `re.search` from a position on; `SearchFindsLeftmost` states its result |
| CorrectPattern.DropPunctSuffix | speech_to_text.py:306 | the result is a prefix, only `.!?` are removed, and it no longer ends in one of them |
| CorrectPattern.DropTrailingPunct | speech_to_text.py:306 | `re.sub(r'[.!?]+$', '', t)`, with `$` also matching before a final newline; `DropTrailingPunctKeeps` shows a phrase not ending in punctuation is kept |
| CorrectPattern.DropTrailingPunctKeeps | speech_to_text.py:306 | a phrase that ends in neither punctuation nor a newline is unchanged |
| CorrectPattern.WordsOf | speech_to_text.py:302-306 | the two words of a match have no newline and no surrounding whitespace |
| CorrectPattern.ExtractCorrectionWords | speech_to_text.py:295-310 | the words found contain no newline and have no surrounding whitespace |
| CorrectPattern.ExtractFindsMatch | speech_to_text.py:300-310 | words are returned iff the pattern matches, nothing otherwise |
| CorrectPattern.CorrectionRoundTrip | speech_to_text.py:295-310 | "correct X with Y", with X one word and Y not ending in whitespace or `.!?`, gives back exactly X and Y |
| VoiceCommands.Decimal | speech_to_text.py:275-277 | the decimal spelling of a count is a non-empty run of ASCII digits |
| VoiceCommands.NumberAt | speech_to_text.py:275 | one attempt of `undo last (\d+) word` at a position; `NumberAtIsMatch` ties it to the pattern |
| VoiceCommands.SearchNumber | speech_to_text.py:275 | `re.search` for that pattern; `SearchNumberLeftmost` shows it returns the value at the leftmost matching position |
| VoiceCommands.FirstWritten | speech_to_text.py:280-287 | the count of the first dictionary entry whose phrase occurs; `FirstWrittenFinds` states it |
| VoiceCommands.ExtractWordCount | speech_to_text.py:266-289 | 1 for "undo word" without "undo last"; otherwise the digit count, else the written count, else 1; `UndoCountDigits`, `WrittenCount` and `UndoCountWritten` state its outcomes |
| VoiceCommands.WrittenCount | speech_to_text.py:280-289 | with no numeric match and entry j the first written number present, the count is entry j's |
| VoiceCommands.DecimalRoundTrip | speech_to_text.py:276-277 | `int` of the decimal spelling of n is n |
| VoiceCommands.NumberAtIsMatch | speech_to_text.py:275-277 | the greedy `undo last (\d+) word` attempt at a position succeeds iff some digit run lets it match; its value is that of the digits matched |
| VoiceCommands.SearchNumberLeftmost | speech_to_text.py:275-277 | the search returns the attempt at the first position where it matches, and nothing iff it matches nowhere |
| VoiceCommands.SearchNumberNoDigits | speech_to_text.py:275 | a sentence without digits has no numeric match |
| VoiceCommands.FirstWrittenFinds | speech_to_text.py:280-287 | the first written number in dictionary order whose phrase occurs gives the count |
| VoiceCommands.UndoCountDigits | speech_to_text.py:266-277 | "undo last N word…" gives N, for every N |
| VoiceCommands.UndoCountWritten | speech_to_text.py:266-289 | "undo last one word" … "undo last ten word", followed by text without spaces or digits, give 1 … 10 |
| VoiceCommands.IsUndoWordsCommand | speech_to_text.py:261-264 | "undo word" anywhere, or both "undo last" and "word" (Python's `or` binds looser than `and`); `Classify` ranks it second |
| VoiceCommands.IsCorrectCommand | speech_to_text.py:291-293 | both "correct" and "with" occur; `CorrectGuardImplied` shows every pattern match passes it |
| VoiceCommands.Key | speech_to_text.py:168 | the lower-cased, stripped sentence every test reads; `Text.Lower` and `Text.Strip` state its shape |
| VoiceCommands.UsableCorrection | speech_to_text.py:185-188 | the extracted words when the guard passes and both are non-empty; `CorrectionShape` and `ClassifyCorrection` state what it yields |
| VoiceCommands.Classify | speech_to_text.py:166-213 | each command is chosen iff no earlier test applies and its own does; the count and the words are those the parsers extract |
| VoiceCommands.EscapeIsLiteral | speech_to_text.py:170-171 | an escape keyword occurs iff "literal" occurs |
| VoiceCommands.LiteralWins | speech_to_text.py:170-172 | a sentence is taken literally iff its key contains "literal", whatever command words it also has |
| VoiceCommands.CorrectGuardImplied | speech_to_text.py:291-300 | every sentence the pattern matches also passes the "correct … with" guard |
| VoiceCommands.CorrectionShape | speech_to_text.py:185-190 | a correction acted on has non-empty, single-line, stripped words taken from a match of the pattern |
| VoiceCommands.LowerOfLowerCase | speech_to_text.py:168 | lowering a lower-case string is the identity |
| VoiceCommands.ClassifyCorrection | speech_to_text.py:166-190 | lower-case "correct x with y" is the correction of x by y when no escape or undo test applies |
| Typing.KeyToolOrderIsPermutation | speech_to_text.py:418-423 | every key tool is tried exactly once; ydotool first under Wayland, xdotool first otherwise |
| Typing.KeyToolOrder | speech_to_text.py:418-423 | the key tools in the session's order; `KeyToolOrderIsPermutation` states it |
| Typing.MapKey | speech_to_text.py:377-396 | `mapping.get(k, k)` in the tool's table; `MapKeys` and `ComboSplitsBack` are stated through it |
| Typing.WtypeCommand | speech_to_text.py:448-463 | the wtype command line, defined only for BackSpace, Return and shift+Return; `KeyCommandsAre` states where it appears |
| Typing.CommandForTool | speech_to_text.py:398-416 | `build_command_for_tool`; `ComboSplitsBack` states the xdotool and ydotool lines |
| Typing.KeyCommands | speech_to_text.py:425-434 | the candidate command lines for a combination; `KeyCommandsAre` lists them exactly |
| Typing.Attempts | speech_to_text.py:437-446 | the command lines run until one succeeds; `AttemptsSpec` and `AttemptsAfterFailures` state them |
| Typing.TextCommands | speech_to_text.py:576-587 | the text command lines in the session's order; `TextCommandsCarryText` and `WaylandOrdersDiffer` state them |
| Typing.RequestAttempts | speech_to_text.py:569-596 | the command lines one typing request runs, none for empty text; `Service.SpeechToTextService.Valid` is stated through it |
| Typing.MapKeys | speech_to_text.py:377-410 | one mapped key per key, each through the tool's table, unmapped keys passing through |
| Typing.CandidatesOfThree | speech_to_text.py:425-434 | the candidates of three tools are each tool's command in order, tools without one skipped |
| Typing.KeyCommandsAre | speech_to_text.py:398-434 | the exact command lines in each session's order; wtype only for the three combinations it knows |
| Typing.ComboSplitsBack | speech_to_text.py:398-410 | the key string given to xdotool or ydotool splits back at `+` into the mapped keys; xdotool gets the keys unchanged |
| Typing.AttemptsSpec | speech_to_text.py:437-446 | the command lines run are a prefix of the candidates; all but the last failed; the last succeeded iff some candidate would; with none succeeding, all were run |
| Typing.AttemptsAfterFailures | speech_to_text.py:437-446 | after k failures, the lines run are the first k candidates followed by what the rest lead to |
| Typing.TryInOrder | speech_to_text.py:437-446 | the loop runs exactly the specified attempts and reports success iff some candidate succeeds |
| Typing.TextCommandsCarryText | speech_to_text.py:576-587 | three text commands, one per tool, each ending with the text |
| Typing.WaylandOrdersDiffer | speech_to_text.py:418-420 | under Wayland, keys go to ydotool first but text to wtype first |
| Transcript.TextOfSnoc | speech_to_text.py:240-241 | the text of the parts grows by an added part, and not at all by a line-break marker |
| Transcript.TextOf | speech_to_text.py:240-241 | the join of the parts other than line-break markers; `TextOfSnoc` states how it grows |
| Transcript.SpacePrefix | speech_to_text.py:88-94 | the space put before text; `NoSpaceAfterLineBreak` and `SpacedTextIsNoMarker` are proved about it |
| Transcript.PyReplace | speech_to_text.py:339-340 | `str.replace` including the empty pattern; `InsertEverywhere` and `Text.ReplaceIsJoinOfSplit` state both cases |
| Transcript.Corrected | speech_to_text.py:339-340 | the two replacements in order, lower-case form then capitalised form; `CorrectAbsentWord` and `CorrectWithItself` are proved about it |
| Transcript.Initial | speech_to_text.py:46-64 | the initial buffer is consistent and empty, not stopping, not typing |
| Transcript.Backspaces | speech_to_text.py:367-370 | n BackSpace presses |
| Transcript.Selections | speech_to_text.py:316-318 | n Ctrl+Shift+Left presses |
| Transcript.Rebuilt | speech_to_text.py:240-241 | rebuilding the text from the parts leaves the buffer consistent |
| Transcript.DeleteStep | speech_to_text.py:215-241 | without parts nothing happens; otherwise the last part goes, the text is rebuilt, and as many BackSpaces are typed as the part has characters (one for a line break, two for a paragraph break) |
| Transcript.DeleteShortensText | speech_to_text.py:215-241 | deleting takes exactly the removed part off the end of the text, a marker nothing; the other parts stay |
| Transcript.UndoWordsStep | speech_to_text.py:312-320 | the buffer is untouched; when typing, n word selections then one BackSpace |
| Transcript.InsertEverywhere | speech_to_text.py:339-340 | `replace` with an empty pattern inserts the replacement at each of the len+1 positions |
| Transcript.ReplaceLast | speech_to_text.py:342-356 | the last part is replaced, the text rebuilt, the last sentence becomes the stripped replacement, and the buffer stays consistent |
| Transcript.CorrectStep | speech_to_text.py:322-356 | nothing without parts or after a marker; otherwise the last part is rewritten, lower-case form first and capitalised form second, then retyped after its BackSpaces |
| Transcript.CorrectRewritesLastPart | speech_to_text.py:342-353 | a correction changes only the end of the text; every earlier part stays |
| Transcript.CorrectAbsentWord | speech_to_text.py:339-340 | correcting a word found in neither form leaves the parts as they were |
| Transcript.CorrectWithItself | speech_to_text.py:339-340 | correcting a word with itself leaves the parts as they were |
| Transcript.NewlineStep | speech_to_text.py:243-247 | the buffer is untouched; one Shift+Return when typing |
| Transcript.ParagraphStep | speech_to_text.py:249-253 | the buffer is untouched; two Shift+Return when typing |
| Transcript.StopStep | speech_to_text.py:255-259 | only the stop flag is set; nothing is typed |
| Transcript.Process | speech_to_text.py:166-213 | per classified command, its handler's effect and the value handed back (`\n`, `\n\n`, the sentence or none) |
| Transcript.Append | speech_to_text.py:86-103 | a marker is added as is; text gets a space when it follows text, updates the text and is typed; consistency is kept |
| Transcript.OnMessage | speech_to_text.py:78-106 | empty or interim transcripts change nothing |
| Transcript.FinalTranscription | speech_to_text.py:527-528 | the stripped text, or none exactly when it is empty |
| Transcript.BeginStreaming | speech_to_text.py:469-470 | typing is switched as asked and the stop flag cleared, keeping the parts and consistency |
| Transcript.Reset | speech_to_text.py:637-638 | the parts and text are emptied, the flags kept |
| Transcript.SpacedTextIsNoMarker | speech_to_text.py:88-95 | spaced text is never mistaken for a line-break marker |
| Transcript.ProcessKeepsConsistent | speech_to_text.py:166-213 | every command keeps the text equal to the join of the non-marker parts |
| Transcript.OnMessageKeepsConsistent | speech_to_text.py:78-106 | every message keeps the buffer consistent |
| Transcript.PlainSentenceAppended | speech_to_text.py:86-103 | a sentence without commands is added with its spacing, typed, and becomes the last sentence |
| Transcript.NoSpaceAfterLineBreak | speech_to_text.py:88-94 | after "new line" the marker is added, the text is unchanged, and the next text gets no leading space |
| Transcript.DeleteUndoesAppend | speech_to_text.py:215-241 | "undo that" right after a sentence restores the parts and text, pressing one BackSpace per character typed |
| Service.SpeechToTextService.constructor | speech_to_text.py:46-64 | the initial buffer, no requests, the given session and oracle |
| Service.SpeechToTextService.Valid | speech_to_text.py:437-446 | the command lines run for each typing request are exactly those it leads to; every method keeps it |
| Service.SpeechToTextService.TypeKeyCombination | speech_to_text.py:372-446 | one key request logged, with exactly the attempts it leads to; the buffer is untouched |
| Service.SpeechToTextService.TypeText | speech_to_text.py:567-603 | one text request logged; nothing run for empty text; otherwise the text tools in order |
| Service.SpeechToTextService.TypeBackspaces | speech_to_text.py:367-370 | n BackSpace requests logged |
| Service.SpeechToTextService.HandleDelete | speech_to_text.py:215-241 | the new state and requests are those of `DeleteStep` |
| Service.SpeechToTextService.HandleNewline | speech_to_text.py:243-247 | the new state and requests are those of `NewlineStep` |
| Service.SpeechToTextService.HandleParagraph | speech_to_text.py:249-253 | the new state and requests are those of `ParagraphStep` |
| Service.SpeechToTextService.HandleStop | speech_to_text.py:255-259 | the new state is that of `StopStep` |
| Service.SpeechToTextService.HandleUndoWords | speech_to_text.py:312-320 | the state is untouched; the requests are those of `UndoWordsStep` |
| Service.SpeechToTextService.HandleCorrect | speech_to_text.py:322-340 | the new state and requests are those of `CorrectStep` |
| Service.SpeechToTextService.ReplaceLastPart | speech_to_text.py:342-356 | the new state and requests are those of `ReplaceLast` |
| Service.SpeechToTextService.ProcessVoiceCommands | speech_to_text.py:166-213 | state, requests and result are those of `Process` |
| Service.SpeechToTextService.OnMessage | speech_to_text.py:78-106 | state and requests are those of `Transcript.OnMessage` |
| Service.SpeechToTextService.AppendResult | speech_to_text.py:86-103 | state and requests are those of `Append` |
| Service.SpeechToTextService.BeginStreaming | speech_to_text.py:469-470 | the flags as `BeginStreaming` sets them; the traces untouched |
| Service.SpeechToTextService.ResetTranscript | speech_to_text.py:637-638 | the state as `Reset` leaves it; the traces untouched |
| Service.SpeechToTextService.FinalTranscription | speech_to_text.py:527-528 | the value of `FinalTranscription` on the current state |
| Hotkey.Initial | speech_hotkey.py:28-29 | not recording, no key held |
| Hotkey.Start | speech_hotkey.py:88-111 | recording afterwards; nothing when it already was; otherwise one start effect |
| Hotkey.Stop | speech_hotkey.py:113-131 | not recording afterwards; nothing when it already was not; otherwise one processing notification |
| Hotkey.Toggle | speech_hotkey.py:81-86 | the flag flips, the keys stay, one effect |
| Hotkey.Press | speech_hotkey.py:46-61 | the key is added; recording changes iff Super and Space are then both held; no effect otherwise |
| Hotkey.Release | speech_hotkey.py:69-74 | the key is removed and the flag kept; releasing an unheld key changes nothing |
| Hotkey.StartIdempotent | speech_hotkey.py:88-93 | starting twice is starting once |
| Hotkey.StopIdempotent | speech_hotkey.py:113-118 | stopping twice is stopping once |
| Hotkey.ToggleTwice | speech_hotkey.py:81-86 | two toggles return to the same state, with one start and one stop |
| Hotkey.HeldComboRepeats | speech_hotkey.py:52-61 | while the combination is held, every further press toggles again |
| Hotkey.ReleaseUndoesPress | speech_hotkey.py:52-74 | pressing and releasing an unheld key leaves the held set as it was |
| Hotkey.ComboNeedsBoth | speech_hotkey.py:55-61 | without Space, or without a Super key, a press only records the key |
| Hotkey.HotkeyService.constructor | speech_hotkey.py:28-29 | the initial state, no effects |
| Hotkey.HotkeyService.OnPress | speech_hotkey.py:46-67 | the new state and effects are those of `Press` |
| Hotkey.HotkeyService.OnRelease | speech_hotkey.py:69-79 | the new state is that of `Release`; no effect |
| Hotkey.HotkeyService.ToggleRecording | speech_hotkey.py:81-86 | the new state and effects are those of `Toggle` |
| Hotkey.HotkeyService.StartRecording | speech_hotkey.py:88-111 | the new state and effects are those of `Start` |
| Hotkey.HotkeyService.StopRecording | speech_hotkey.py:113-131 | the new state and effects are those of `Stop` |
| Hotkey.RecordThreadGivesUp | speech_hotkey.py:146-167 | the flag is cleared, the keys kept, and nothing is notified |
| Hotkey.StartAsWritten | speech_hotkey.py:88-167 | as the code stands, a start sends its notification and ends with the flag cleared again |
| Hotkey.ToggleAsWritten | speech_hotkey.py:81-86 | the toggle with the start as the code stands |
| Hotkey.SecondToggleRestartsAsWritten | speech_hotkey.py:81-167 | as the code stands, the second Super+Space starts again; "Processing audio" is never sent |
| Hotkey.SecondToggleStops | speech_hotkey.py:81-131 | with a thread that keeps running, the second Super+Space stops recording, sends "Processing audio" and restores the state |
| Hotkey.HotkeyService.RecordingThreadFailed | speech_hotkey.py:146-167 | the new state is that of `RecordThreadGivesUp`; no effect |
| InstallCheck.ToolsToTest | test_installation.py:26-34 | the session's tools followed by `pactl` and `notify-send` |
| InstallCheck.ToolsPerSession | test_installation.py:26-34 | the exact list for each session type; an unset variable is X11 |
| InstallCheck.SessionTypingTool | test_installation.py:29-32 | each session probes its own typing tool and not the other session's |
| InstallCheck.AllAvailable | test_installation.py:36-45 | the verdict holds iff every tool was available |
| InstallCheck.VerdictFailsOnMissing | test_installation.py:38-43 | the verdict fails iff some tool was not found or timed out; a non-zero exit never fails it |
| InstallCheck.TestSystemTools | test_installation.py:24-45 | every tool of the list is probed, in order, even after a failure, and the result is the verdict |
| InstallCheck.TestDeepgramApiKey | test_installation.py:47-56 | passes iff the key is set and non-empty |
| InstallCheck.RunAll | test_installation.py:58-82 | the three results in order; exit status 1 iff one of them failed, 0 otherwise |

## Left out

- The Deepgram SDK, the websocket connection, asyncio, the microphone stream and `transcribe_audio`: network and device I/O. A final transcript is an input to `OnMessage`.
- The continuous mode's loop and its timing. Only the reset of the parts between rounds is modelled.
- Prints, emoji status lines and `_suggest_typing_tools`: console output only.
- Unicode case mapping: `lower` and `capitalize` change only ASCII letters. Python's `\d` also matches non-ASCII decimal digits; the model takes ASCII digits only.
- VoiceCommands.UndoCountDigits: from Python 3.11 on, `int()` at speech_to_text.py:277 raises `ValueError` on a digit group longer than 4300 digits; the model reads a digit group of any length.
- Exceptions other than a failed or missing command when typing: any other exception from `subprocess.run` is not modelled. The same goes for probe exceptions other than a missing program or a timeout.
- The environment is read once. The session type is a constant of the service, where the source reads `XDG_SESSION_TYPE` on each typing call.
- `hasattr(self, 'real_time_typing')`: always true in the model, since the flag is a field set at construction.
- Service.SpeechToTextService.TypeKeyCombination: the command-line oracle is fixed over time, so a tool gives the same outcome on every call.
- Hotkey.HotkeyService.StartRecording: the notification command and the start of the recording thread are recorded as one effect. The thread's own write to `recording` (speech_hotkey.py:151 and :167) is a separate step, `RecordingThreadFailed`; `Start`, `Stop` and `ToggleTwice` describe the toggle with a thread that keeps running. As the code stands, whenever `import pyaudio` succeeds and the thread fails before the next press, the thread ends that way (see Findings), so the next Super+Space starts recording again instead of stopping. The thread's recording, saving and transcription work is not modelled.
- Hotkey.StartAsWritten: covers only the run in which `import pyaudio` (speech_hotkey.py:135) succeeds and the thread gives up before the next press. When the import fails, the `ImportError` is raised before the try at speech_hotkey.py:144, the thread ends without clearing the flag, and the next Super+Space stops and processes as `Start`, `Stop` and `Toggle` describe; a press that comes while the thread is still setting up is the same case.
- Hotkey.HotkeyService.StopRecording: the notification is an effect; the recording thread's wind-down is not modelled.
- The hotkey's `pynput` listener, its signal handlers and the import of `pynput`: event sources and process control.
- `copy_to_clipboard`: not defined in the modelled files, and only reached from the transcription thread, which is not modelled.
- `test_imports`: whether the packages import is an input (`importsOk`) to `RunAll`.
- The hint printed after a missing API key: console output only.
- Service.SpeechToTextService.Valid: the command lines run are kept grouped per request rather than as one flat log; the flat log is their concatenation.

## Findings

| source | as written | input that shows it | evidently intended | confidence | as-written member | corrected member |
|---|---|---|---|---|---|---|
| speech_hotkey.py:148 | the recording thread calls `self.stt_service.find_input_device(audio)`, which `SpeechToTextService` does not define; the `AttributeError` is caught at speech_hotkey.py:165 and the flag is cleared at :167 | Super+Space once with `pyaudio` importable, then Super+Space again after the thread has failed: the second press starts recording again, and "Processing audio" is never sent | a device lookup that returns a device, so the flag stays set until the second Super+Space stops and processes | not executed; the method is absent from speech_to_text.py | Hotkey.SecondToggleRestartsAsWritten | Hotkey.SecondToggleStops |
