/**
 * The installation self-test: which system tools are probed for the session type, how the
 * probe outcomes add up to a verdict, the API-key test, and the exit decision over the
 * three tests. Running `tool --help` is an oracle giving the probe's outcome per tool.
 */
module InstallCheck {
  import opened Common

  /**
   * What probing a tool with `--help` ends in: the program ran and exited with some code, it
   * was not found, or it did not finish within the five-second timeout.
   */
  datatype Probe = Exited(code: int) | NotFound | TimedOut

  /** A tool counts as available when the probe ran it at all, whatever its exit code. */
  predicate Available(p: Probe) {
    p.Exited?
  }

  const AudioAndNotify: seq<string> := ["pactl", "notify-send"]

  /** tools_to_test: the session's typing and clipboard tools, then pactl and notify-send. */
  function ToolsToTest(env: Option<string>): (tools: seq<string>)
    ensures |tools| >= 2 && tools[|tools| - 2..] == AudioAndNotify
  {
    (if IsWayland(env) then ["wtype", "ydotool", "wl-copy"] else ["xdotool", "xclip"]) + AudioAndNotify
  }

  /** The lists for each session type, spelled out; an unset variable reads as X11. */
  lemma ToolsPerSession(env: Option<string>)
    ensures IsWayland(env) ==> ToolsToTest(env) == ["wtype", "ydotool", "wl-copy", "pactl", "notify-send"]
    ensures !IsWayland(env) ==> ToolsToTest(env) == ["xdotool", "xclip", "pactl", "notify-send"]
    ensures ToolsToTest(None) == ToolsToTest(Some("x11"))
  {
    assert !IsWayland(None) && !IsWayland(Some("x11"));
  }

  /** Each session probes the typing tool the service tries first, and not the other session's. */
  lemma SessionTypingTool(env: Option<string>)
    ensures IsWayland(env) ==> "wtype" in ToolsToTest(env) && "xdotool" !in ToolsToTest(env)
    ensures !IsWayland(env) ==> "xdotool" in ToolsToTest(env) && "wtype" !in ToolsToTest(env)
  {
    ToolsPerSession(env);
  }

  /** The verdict over a list of probes: every tool found and answering in time. */
  function AllAvailable(tools: seq<string>, probe: string -> Probe): (ok: bool)
    ensures ok <==> forall i :: 0 <= i < |tools| ==> Available(probe(tools[i]))
    decreases |tools|
  {
    if tools == [] then true
    else AllAvailable(tools[..|tools| - 1], probe) && Available(probe(tools[|tools| - 1]))
  }

  /** A verdict fails exactly on a tool that was not found or timed out; a non-zero exit never fails it. */
  lemma {:induction false} VerdictFailsOnMissing(tools: seq<string>, probe: string -> Probe)
    ensures !AllAvailable(tools, probe) <==>
      exists t :: t in tools && (probe(t) == NotFound || probe(t) == TimedOut)
  {
    if !AllAvailable(tools, probe) {
      var i :| 0 <= i < |tools| && !Available(probe(tools[i]));
      assert tools[i] in tools;
    }
  }

  /**
   * test_system_tools: every tool in the list is probed, in order, even after a failure, and
   * the result is true exactly when each was available.
   */
  method TestSystemTools(env: Option<string>, probe: string -> Probe) returns (success: bool, probed: seq<string>)
    ensures probed == ToolsToTest(env)
    ensures success == AllAvailable(ToolsToTest(env), probe)
  {
    var tools: seq<string> := [];
    if SessionType(env) == "wayland" {
      tools := ["wtype", "ydotool", "wl-copy"];
    } else {
      tools := ["xdotool", "xclip"];
    }
    tools := tools + ["pactl", "notify-send"];
    success := true;
    probed := [];
    var i := 0;
    while i < |tools|
      invariant 0 <= i <= |tools|
      invariant probed == tools[..i]
      invariant success == AllAvailable(tools[..i], probe)
    {
      var outcome := probe(tools[i]);
      probed := probed + [tools[i]];
      if outcome == NotFound || outcome == TimedOut {
        success := false;
      }
      assert tools[..i + 1][..i] == tools[..i];
      i := i + 1;
    }
    assert tools[..i] == tools;
  }

  /** test_deepgram_api_key: true exactly when DEEPGRAM_API_KEY is set to a non-empty string. */
  function TestDeepgramApiKey(apiKey: Option<string>): (ok: bool)
    ensures ok <==> apiKey.Some? && apiKey.value != []
  {
    match apiKey
    case None => false
    case Some(k) => k != []
  }

  /**
   * The script's main block: the three tests run in order and their results are collected;
   * the exit status is 1 exactly when one of them failed. Whether the packages import is an
   * input.
   */
  method RunAll(importsOk: bool, env: Option<string>, probe: string -> Probe, apiKey: Option<string>)
    returns (results: seq<bool>, exitCode: int)
    ensures results == [importsOk, AllAvailable(ToolsToTest(env), probe), TestDeepgramApiKey(apiKey)]
    ensures exitCode == 0 || exitCode == 1
    ensures exitCode == 1 <==> exists i :: 0 <= i < |results| && !results[i]
  {
    results := [];
    var i := 0;
    while i < 3
      invariant 0 <= i <= 3
      invariant results == [importsOk, AllAvailable(ToolsToTest(env), probe), TestDeepgramApiKey(apiKey)][..i]
    {
      var r: bool;
      if i == 0 {
        r := importsOk;
      } else if i == 1 {
        var probed;
        r, probed := TestSystemTools(env, probe);
      } else {
        r := TestDeepgramApiKey(apiKey);
      }
      results := results + [r];
      i := i + 1;
    }
    exitCode := if false in results then 1 else 0;
  }
}
