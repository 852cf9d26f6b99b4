/**
 * How the service turns a key combination or a piece of text into command lines for the
 * typing tools (xdotool, ydotool, wtype), and how it tries them: in an order fixed by the
 * session type, stopping at the first that succeeds. Running a command line is an oracle:
 * `runs(c)` says whether it exits successfully (false covers a missing program and a
 * non-zero exit, the two failures the source catches).
 */
module Typing {
  import opened Common
  import opened Text

  type CommandLine = seq<string>

  datatype Tool = Xdotool | Ydotool | Wtype

  function ToolName(t: Tool): string {
    match t
    case Xdotool => "xdotool"
    case Ydotool => "ydotool"
    case Wtype => "wtype"
  }

  /** The order type_key_combination tries the tools in. */
  function KeyToolOrder(env: Option<string>): seq<Tool> {
    if IsWayland(env) then [Ydotool, Wtype, Xdotool] else [Xdotool, Ydotool, Wtype]
  }

  /** Each session type tries every tool, and each exactly once. */
  lemma KeyToolOrderIsPermutation(env: Option<string>)
    ensures multiset(KeyToolOrder(env)) == multiset{Xdotool, Ydotool, Wtype}
    ensures IsWayland(env) ==> KeyToolOrder(env)[0] == Ydotool
    ensures !IsWayland(env) ==> KeyToolOrder(env)[0] == Xdotool
  {
    if IsWayland(env) {
      calc {
        multiset(KeyToolOrder(env));
        multiset([Ydotool, Wtype, Xdotool]);
        multiset{Ydotool} + multiset{Wtype} + multiset{Xdotool};
        multiset{Xdotool, Ydotool, Wtype};
      }
    } else {
      calc {
        multiset(KeyToolOrder(env));
        multiset([Xdotool, Ydotool, Wtype]);
        multiset{Xdotool} + multiset{Ydotool} + multiset{Wtype};
      }
    }
  }

  /** The tool's name for a key: xdotool keeps X11 keysym names, ydotool renames two of them. */
  function MapKey(tool: Tool, key: string): string {
    if tool == Ydotool && key == "BackSpace" then "Backspace"
    else if tool == Ydotool && key == "Return" then "enter"
    else key
  }

  function MapKeys(tool: Tool, keys: seq<string>): (r: seq<string>)
    ensures |r| == |keys| && forall i :: 0 <= i < |keys| ==> r[i] == MapKey(tool, keys[i])
  {
    seq(|keys|, i requires 0 <= i < |keys| => MapKey(tool, keys[i]))
  }

  /** wtype only knows a lone BackSpace, a lone Return, and shift+Return (sent as a plain Return). */
  function WtypeCommand(keys: seq<string>): Option<CommandLine> {
    if |keys| == 1 && keys[0] == "BackSpace" then Some(["wtype", "-P", "backspace", "-p", "backspace"])
    else if |keys| == 1 && keys[0] == "Return" then Some(["wtype", "-P", "enter", "-p", "enter"])
    else if keys == ["shift", "Return"] then Some(["wtype", "-P", "enter", "-p", "enter"])
    else None
  }

  /** build_command_for_tool: the command line for one tool, or None when the tool cannot type it. */
  function CommandForTool(keys: seq<string>, tool: Tool): Option<CommandLine> {
    match tool
    case Xdotool => Some(["xdotool", "key", Join(MapKeys(Xdotool, keys), "+")])
    case Ydotool => Some(["ydotool", "key", Join(MapKeys(Ydotool, keys), "+")])
    case Wtype => WtypeCommand(keys)
  }

  /** The command lines of the tools that can type the combination, in the given tool order. */
  function Candidates(tools: seq<Tool>, keys: seq<string>): seq<CommandLine>
    decreases |tools|
  {
    if tools == [] then [] else Offered(tools[0], keys) + Candidates(tools[1..], keys)
  }

  /** The tool's command line, when the tool is offered at all. */
  function Offered(tool: Tool, keys: seq<string>): seq<CommandLine> {
    match CommandForTool(keys, tool)
    case Some(c) => [c]
    case None => []
  }

  lemma CandidatesOfThree(a: Tool, b: Tool, c: Tool, keys: seq<string>)
    ensures Candidates([a, b, c], keys) == Offered(a, keys) + Offered(b, keys) + Offered(c, keys)
  {
    var t := [a, b, c];
    assert t[1..] == [b, c] && t[1..][1..] == [c] && t[1..][1..][1..] == [];
    assert Candidates([c], keys) == Offered(c, keys) + Candidates([], keys);
  }

  /** The command lines type_key_combination may try, in order. */
  function KeyCommands(env: Option<string>, keys: seq<string>): seq<CommandLine> {
    Candidates(KeyToolOrder(env), keys)
  }

  /** A combination wtype can type. */
  predicate WtypeKnows(keys: seq<string>) {
    keys == ["BackSpace"] || keys == ["Return"] || keys == ["shift", "Return"]
  }

  /**
   * The command lines for a combination: xdotool and ydotool always, wtype only for the
   * three combinations it knows, each in the session's order.
   */
  lemma KeyCommandsAre(env: Option<string>, keys: seq<string>)
    ensures var x := ["xdotool", "key", Join(keys, "+")];
      var y := ["ydotool", "key", Join(MapKeys(Ydotool, keys), "+")];
      if IsWayland(env) then
        KeyCommands(env, keys) == (if WtypeKnows(keys) then [y, WtypeCommand(keys).value, x] else [y, x])
      else
        KeyCommands(env, keys) == (if WtypeKnows(keys) then [x, y, WtypeCommand(keys).value] else [x, y])
  {
    assert MapKeys(Xdotool, keys) == keys;
    assert WtypeCommand(keys).Some? <==> WtypeKnows(keys);
    CandidatesOfThree(Ydotool, Wtype, Xdotool, keys);
    CandidatesOfThree(Xdotool, Ydotool, Wtype, keys);
  }

  /** The key string handed to xdotool or ydotool splits back at '+' into the keys it was built from. */
  lemma ComboSplitsBack(tool: Tool, keys: seq<string>)
    requires tool != Wtype && keys != []
    requires forall i :: 0 <= i < |keys| ==> '+' !in keys[i]
    ensures CommandForTool(keys, tool).Some?
    ensures var c := CommandForTool(keys, tool).value;
      |c| == 3 && c[0] == ToolName(tool) && c[1] == "key" && Split(c[2], "+") == MapKeys(tool, keys)
    ensures tool == Xdotool ==> MapKeys(tool, keys) == keys
  {
    var m := MapKeys(tool, keys);
    forall i | 0 <= i < |m| ensures '+' !in m[i] {
      assert m[i] == MapKey(tool, keys[i]);
      assert '+' !in "Backspace" && '+' !in "enter";
    }
    SplitOfJoin(m, '+');
  }

  /** The command lines tried: each in turn up to and including the first that succeeds. */
  function Attempts(cmds: seq<CommandLine>, runs: CommandLine -> bool): seq<CommandLine>
    decreases |cmds|
  {
    if cmds == [] then []
    else if runs(cmds[0]) then [cmds[0]]
    else [cmds[0]] + Attempts(cmds[1..], runs)
  }

  predicate AnySucceeds(cmds: seq<CommandLine>, runs: CommandLine -> bool) {
    exists i :: 0 <= i < |cmds| && runs(cmds[i])
  }

  /**
   * The attempts are a prefix of the candidates; every attempt but the last failed; the last
   * succeeded exactly when some candidate would; and with no candidate succeeding every one
   * was tried.
   */
  lemma {:induction false} AttemptsSpec(cmds: seq<CommandLine>, runs: CommandLine -> bool)
    ensures Attempts(cmds, runs) <= cmds
    ensures var a := Attempts(cmds, runs); forall i :: 0 <= i < |a| - 1 ==> !runs(a[i])
    ensures AnySucceeds(cmds, runs) <==> (Attempts(cmds, runs) != [] && runs(Attempts(cmds, runs)[|Attempts(cmds, runs)| - 1]))
    ensures !AnySucceeds(cmds, runs) ==> Attempts(cmds, runs) == cmds
    decreases |cmds|
  {
    if cmds != [] {
      if runs(cmds[0]) {
        assert Attempts(cmds, runs) == [cmds[0]];
      } else {
        var t := cmds[1..];
        AttemptsSpec(t, runs);
        assert Attempts(cmds, runs) == [cmds[0]] + Attempts(t, runs);
        assert AnySucceeds(cmds, runs) ==> AnySucceeds(t, runs) by {
          if AnySucceeds(cmds, runs) {
            var i :| 0 <= i < |cmds| && runs(cmds[i]);
            assert t[i - 1] == cmds[i];
          }
        }
        assert AnySucceeds(t, runs) ==> AnySucceeds(cmds, runs) by {
          if AnySucceeds(t, runs) {
            var i :| 0 <= i < |t| && runs(t[i]);
            assert cmds[i + 1] == t[i];
          }
        }
        assert cmds == [cmds[0]] + t;
      }
    }
  }

  /** One step of Attempts on a suffix: the command at i is tried, and the rest only when it failed. */
  lemma AttemptsAt(cmds: seq<CommandLine>, i: nat, runs: CommandLine -> bool)
    requires i < |cmds|
    ensures Attempts(cmds[i..], runs) == [cmds[i]] + (if runs(cmds[i]) then [] else Attempts(cmds[i + 1..], runs))
  {
    var rest := cmds[i..];
    assert rest[0] == cmds[i] && rest[1..] == cmds[i + 1..];
  }

  /** Moving one element from the rest of a sequence onto its first part. */
  lemma TakeOneMore<T>(s: seq<T>, i: nat, rest: seq<T>)
    requires 0 < i <= |s|
    ensures s[..i - 1] + ([s[i - 1]] + rest) == s[..i] + rest
  {
    assert s[..i - 1] + [s[i - 1]] == s[..i];
  }

  /** When the first i candidates fail, all of them are tried before the rest. */
  lemma {:induction false} AttemptsAfterFailures(cmds: seq<CommandLine>, i: nat, runs: CommandLine -> bool)
    requires i <= |cmds|
    requires forall k :: 0 <= k < i ==> !runs(cmds[k])
    ensures Attempts(cmds, runs) == cmds[..i] + Attempts(cmds[i..], runs)
    decreases i
  {
    if i == 0 {
      assert cmds[0..] == cmds;
    } else {
      AttemptsAfterFailures(cmds, i - 1, runs);
      assert !runs(cmds[i - 1]);
      AttemptsAt(cmds, i - 1, runs);
      TakeOneMore(cmds, i, Attempts(cmds[i..], runs));
    }
  }

  /** Runs the candidates in order until one succeeds (the source's try/continue loop). */
  method TryInOrder(cmds: seq<CommandLine>, runs: CommandLine -> bool) returns (tried: seq<CommandLine>, ok: bool)
    ensures tried == Attempts(cmds, runs)
    ensures ok <==> AnySucceeds(cmds, runs)
  {
    tried := [];
    ok := false;
    var i := 0;
    while i < |cmds|
      invariant 0 <= i <= |cmds|
      invariant tried == cmds[..i]
      invariant forall k :: 0 <= k < i ==> !runs(cmds[k])
    {
      tried := tried + [cmds[i]];
      if runs(cmds[i]) {
        AttemptsAfterFailures(cmds, i, runs);
        AttemptsAt(cmds, i, runs);
        ok := true;
        return;
      }
      assert tried == cmds[..i + 1];
      i := i + 1;
    }
    AttemptsAfterFailures(cmds, i, runs);
    assert cmds[..i] == cmds;
  }

  /** The command lines type_text tries. wtype comes first under Wayland, xdotool otherwise. */
  function TextCommands(env: Option<string>, text: string): seq<CommandLine> {
    var w := ["wtype", text];
    var y := ["ydotool", "type", text];
    var x := ["xdotool", "type", "--delay", "50", text];
    if IsWayland(env) then [w, y, x] else [x, w, y]
  }

  /** Every text command passes the text, unchanged, as its last argument, and each tool is offered once. */
  lemma TextCommandsCarryText(env: Option<string>, text: string)
    ensures |TextCommands(env, text)| == 3
    ensures forall c :: c in TextCommands(env, text) ==> |c| >= 2 && c[|c| - 1] == text
    ensures {TextCommands(env, text)[0][0], TextCommands(env, text)[1][0], TextCommands(env, text)[2][0]}
      == {"wtype", "ydotool", "xdotool"}
  {
  }

  /** Under Wayland the two orders disagree: key combinations start with ydotool, text with wtype. */
  lemma WaylandOrdersDiffer(env: Option<string>, keys: seq<string>, text: string)
    requires IsWayland(env)
    ensures KeyCommands(env, keys)[0][0] == "ydotool"
    ensures TextCommands(env, text)[0][0] == "wtype"
  {
    KeyCommandsAre(env, keys);
  }

  /** One request to the typing layer. */
  datatype Request = Keys(keys: seq<string>) | Text(text: string)

  /** The command lines one request runs; empty text is refused before any tool is tried. */
  function RequestAttempts(env: Option<string>, r: Request, runs: CommandLine -> bool): seq<CommandLine> {
    match r
    case Keys(keys) => Attempts(KeyCommands(env, keys), runs)
    case Text(t) => if t == [] then [] else Attempts(TextCommands(env, t), runs)
  }
}
