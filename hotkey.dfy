/**
 * The hotkey service's toggle: the set of keys held down and the recording flag. A press
 * of any key while Super and Space are both held toggles recording; starting and stopping
 * are guarded so that each does nothing when it is already in effect. The desktop
 * notification and the recording thread that starting and stopping set off are recorded
 * as effects.
 */
module Hotkey {

  /** The keys the toggle looks at, and every other key. */
  datatype Key = Cmd | CmdL | CmdR | Space | Other(name: string)

  /**
   * What starting and stopping set off: starting sends the "Recording started"
   * notification and starts the recording thread, stopping sends the "Processing audio"
   * notification.
   */
  datatype Effect = RecordingStarted | ProcessingNotified

  /** One of the three Super keys is held. */
  predicate SuperHeld(keys: set<Key>) {
    Cmd in keys || CmdL in keys || CmdR in keys
  }

  /** Super and Space are both held. */
  predicate ComboHeld(keys: set<Key>) {
    SuperHeld(keys) && Space in keys
  }

  datatype Hotkeys = Hotkeys(recording: bool, keys: set<Key>)

  /** A transition's new state and the effects it sets off, in order. */
  datatype Step = Step(state: Hotkeys, effects: seq<Effect>)

  /** The state __init__ leaves: not recording, no key held. */
  function Initial(): (s: Hotkeys)
    ensures !s.recording && s.keys == {}
  {
    Hotkeys(false, {})
  }

  /** start_recording: nothing when recording already; otherwise recording, with its notification and thread. */
  function Start(s: Hotkeys): (r: Step)
    ensures r.state.recording && r.state.keys == s.keys
    ensures s.recording ==> r == Step(s, [])
    ensures !s.recording ==> r.effects == [RecordingStarted]
  {
    if s.recording then Step(s, []) else Step(s.(recording := true), [RecordingStarted])
  }

  /** stop_recording: nothing when not recording; otherwise not recording, with its notification. */
  function Stop(s: Hotkeys): (r: Step)
    ensures !r.state.recording && r.state.keys == s.keys
    ensures !s.recording ==> r == Step(s, [])
    ensures s.recording ==> r.effects == [ProcessingNotified]
  {
    if !s.recording then Step(s, []) else Step(s.(recording := false), [ProcessingNotified])
  }

  /** toggle_recording: stop when recording, start otherwise; either way the flag flips. */
  function Toggle(s: Hotkeys): (r: Step)
    ensures r.state.recording == !s.recording && r.state.keys == s.keys
    ensures |r.effects| == 1
  {
    if s.recording then Stop(s) else Start(s)
  }

  /** on_press: the key is added to the held set, and the recording toggles when Super and Space are then both held. */
  function Press(s: Hotkeys, k: Key): (r: Step)
    ensures r.state.keys == s.keys + {k}
    ensures r.state.recording != s.recording <==> ComboHeld(s.keys + {k})
    ensures !ComboHeld(s.keys + {k}) ==> r.effects == []
  {
    var held := s.(keys := s.keys + {k});
    if ComboHeld(held.keys) then Toggle(held) else Step(held, [])
  }

  /** on_release: the key is taken out of the held set; releasing a key that is not held changes nothing. */
  function Release(s: Hotkeys, k: Key): (r: Hotkeys)
    ensures r.keys == s.keys - {k} && r.recording == s.recording
    ensures k !in s.keys ==> r == s
  {
    s.(keys := s.keys - {k})
  }

  /** Starting twice is starting once. */
  lemma StartIdempotent(s: Hotkeys)
    ensures Start(Start(s).state) == Step(Start(s).state, [])
  {
  }

  /** Stopping twice is stopping once. */
  lemma StopIdempotent(s: Hotkeys)
    ensures Stop(Stop(s).state) == Step(Stop(s).state, [])
  {
  }

  /** Toggling twice comes back to the same state, having started and stopped once each. */
  lemma ToggleTwice(s: Hotkeys)
    ensures Toggle(Toggle(s).state).state == s
    ensures var e := Toggle(s).effects + Toggle(Toggle(s).state).effects;
      e == [RecordingStarted, ProcessingNotified] || e == [ProcessingNotified, RecordingStarted]
  {
  }

  /** While Super and Space stay held, every press of any key toggles again. */
  lemma HeldComboRepeats(s: Hotkeys, k: Key)
    requires ComboHeld(s.keys)
    ensures Press(s, k).state.recording == !s.recording
    ensures Press(Press(s, k).state, k).state.recording == s.recording
  {
  }

  /** Pressing a key that was not held and releasing it again leaves the held set as it was. */
  lemma ReleaseUndoesPress(s: Hotkeys, k: Key)
    requires k !in s.keys
    ensures Release(Press(s, k).state, k).keys == s.keys
  {
  }

  /** Only the combination toggles: neither Super nor Space alone does, whatever else is held. */
  lemma ComboNeedsBoth(s: Hotkeys, k: Key)
    requires Space !in s.keys + {k} || !SuperHeld(s.keys + {k})
    ensures Press(s, k) == Step(s.(keys := s.keys + {k}), [])
  {
  }

  /**
   * The recording thread giving up: when no input device is found, or when setting up the
   * audio raises, the thread clears the flag itself, without any notification.
   */
  function RecordThreadGivesUp(s: Hotkeys): (r: Hotkeys)
    ensures !r.recording && r.keys == s.keys
  {
    s.(recording := false)
  }

  /**
   * start_recording as the code stands, when `import pyaudio` succeeds: the thread it starts
   * looks up the input device through a method the speech service does not define, so the
   * lookup raises, the handler catches it, and the thread gives up. Once the thread has done
   * so, the start has ended with the flag cleared again.
   */
  function StartAsWritten(s: Hotkeys): (r: Step)
    ensures s.recording ==> r == Step(s, [])
    ensures !s.recording ==> !r.state.recording && r.state.keys == s.keys && r.effects == [RecordingStarted]
  {
    var st := Start(s);
    if s.recording then st else Step(RecordThreadGivesUp(st.state), st.effects)
  }

  /** The toggle with start_recording as the code stands, once the recording thread has given up. */
  function ToggleAsWritten(s: Hotkeys): (r: Step)
    ensures s.recording ==> r == Stop(s)
    ensures !s.recording ==> r == StartAsWritten(s)
  {
    if s.recording then Stop(s) else StartAsWritten(s)
  }

  /**
   * As the code stands, whenever `import pyaudio` succeeds and the thread fails before the
   * next press, a second Super+Space after a start does not stop and process: the flag has
   * already been cleared, so it starts recording again and "Processing audio" is never sent.
   */
  lemma SecondToggleRestartsAsWritten(s: Hotkeys)
    requires !s.recording
    ensures var first := ToggleAsWritten(s);
      var second := ToggleAsWritten(first.state);
      && first.effects == [RecordingStarted] && second.effects == [RecordingStarted]
      && ProcessingNotified !in first.effects + second.effects
      && !second.state.recording
  {
    var first := ToggleAsWritten(s);
    assert !first.state.recording;
    assert first.effects + ToggleAsWritten(first.state).effects == [RecordingStarted, RecordingStarted];
  }

  /** With a recording thread that keeps running, the second Super+Space stops and sends "Processing audio". */
  lemma SecondToggleStops(s: Hotkeys)
    requires !s.recording
    ensures var first := Toggle(s);
      var second := Toggle(first.state);
      && first.effects == [RecordingStarted] && second.effects == [ProcessingNotified]
      && second.state == s
  {
  }

  /** HotkeyService: the held keys and the flag as fields, and the effects set off so far. */
  class HotkeyService {
    var recording: bool
    var currentKeys: set<Key>
    /** The notifications and recording threads set off so far, in order. */
    var effects: seq<Effect>

    function State(): Hotkeys
      reads this
    {
      Hotkeys(recording, currentKeys)
    }

    constructor()
      ensures State() == Initial() && effects == []
    {
      recording := false;
      currentKeys := {};
      effects := [];
    }

    method OnPress(key: Key)
      modifies this
      ensures State() == Press(old(State()), key).state
      ensures effects == old(effects) + Press(old(State()), key).effects
    {
      currentKeys := currentKeys + {key};
      var superPressed := Cmd in currentKeys || CmdL in currentKeys || CmdR in currentKeys;
      var spacePressed := Space in currentKeys;
      if superPressed && spacePressed {
        ToggleRecording();
      }
    }

    method OnRelease(key: Key)
      modifies this
      ensures State() == Release(old(State()), key)
      ensures effects == old(effects)
    {
      currentKeys := currentKeys - {key};
    }

    method ToggleRecording()
      modifies this
      ensures State() == Toggle(old(State())).state
      ensures effects == old(effects) + Toggle(old(State())).effects
    {
      if recording {
        StopRecording();
      } else {
        StartRecording();
      }
    }

    method StartRecording()
      modifies this
      ensures State() == Start(old(State())).state
      ensures effects == old(effects) + Start(old(State())).effects
    {
      if recording {
        return;
      }
      recording := true;
      effects := effects + [RecordingStarted];
    }

    /** The recording thread clearing the flag when it cannot set up the audio. */
    method RecordingThreadFailed()
      modifies this
      ensures State() == RecordThreadGivesUp(old(State()))
      ensures effects == old(effects)
    {
      recording := false;
    }

    method StopRecording()
      modifies this
      ensures State() == Stop(old(State())).state
      ensures effects == old(effects) + Stop(old(State())).effects
    {
      if !recording {
        return;
      }
      recording := false;
      effects := effects + [ProcessingNotified];
    }
  }
}
