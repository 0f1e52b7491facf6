/**
 * The workspace's simulated terminal: the line editor fed by keystroke
 * data, the running-command flags, what is written to the screen, and
 * the canned responses of the mock command runner.
 */
module Terminal {
  import opened JsText

  // ---------------------------------------------------------------------
  // The mock command runner
  // ---------------------------------------------------------------------

  const LsOutput := "main.py  api.py  README.md"

  /** The canned responses, keyed by a command fragment, in the order they are tried. */
  const Responses: seq<(string, string)> := [
    ("ls", LsOutput),
    ("pwd", "/workspace/project"),
    ("python main.py", "Hello, World!\nPython script executed successfully!"),
    ("python api.py", "Flask app starting...\n * Running on http://127.0.0.1:5000\n * Debug mode: on"),
    ("pip list", "Package    Version\n---------- -------\nFlask      2.3.3\nrequests   2.31.0"),
    ("python --version", "Python 3.11.5"),
    ("node --version", "v18.17.0"),
    ("npm --version", "9.6.7"),
    ("git status", "On branch main\nnothing to commit, working tree clean"),
    ("help", "Available commands:\n  ls, pwd, python, pip, node, npm, git\n  Type any command to see simulated output")]

  const ScriptOutput := "Script executed successfully!\n(This is a simulated output)"

  /** The response of the first entry whose key occurs in `lower`. */
  function FirstHit(table: seq<(string, string)>, lower: string): Option<string> {
    if table == [] then None
    else if Includes(lower, table[0].0) then Some(table[0].1)
    else FirstHit(table[1..], lower)
  }

  /** The first hit is the entry at the smallest index whose key occurs; there is none when no key occurs. */
  lemma {:induction false} FirstHitSpec(table: seq<(string, string)>, lower: string, i: nat)
    requires i < |table| && Includes(lower, table[i].0)
    requires forall j :: 0 <= j < i ==> !Includes(lower, table[j].0)
    ensures FirstHit(table, lower) == Some(table[i].1)
  {
    if i > 0 {
      FirstHitSpec(table[1..], lower, i - 1);
    }
  }

  lemma {:induction false} FirstHitNone(table: seq<(string, string)>, lower: string)
    ensures FirstHit(table, lower).None? <==> forall j :: 0 <= j < |table| ==> !Includes(lower, table[j].0)
  {
    if table != [] {
      FirstHitNone(table[1..], lower);
      if FirstHit(table, lower).None? {
        forall j | 0 <= j < |table| ensures !Includes(lower, table[j].0) {
          if j > 0 {
            assert table[j] == table[1..][j - 1];
          }
        }
      }
    }
  }

  /** `command.split(' ')[2] || 'package'`. */
  function PipPackage(command: string): string {
    var parts := Split(command, ' ');
    if |parts| > 2 && parts[2] != "" then parts[2] else "package"
  }

  function PipOutput(package: string): string {
    "Collecting " + package + "\nInstalling collected packages: " + package + "\nSuccessfully installed " + package
  }

  function FallbackOutput(command: string): string {
    "Command '" + command + "' executed.\n(This is a simulated terminal - connect to a real backend for actual execution)"
  }

  /** A `python ` command naming a `.py` file, in any letter case. */
  predicate IsScript(command: string) {
    StartsWith(Lower(command), "python ") && Includes(Lower(command), ".py")
  }

  /** A table whose responses are all non-empty has only non-empty hits. */
  lemma {:induction false} FirstHitNonEmpty(table: seq<(string, string)>, lower: string)
    requires forall k :: 0 <= k < |table| ==> table[k].1 != []
    ensures FirstHit(table, lower).Some? ==> FirstHit(table, lower).value != []
  {
    if table != [] && !Includes(lower, table[0].0) {
      FirstHitNonEmpty(table[1..], lower);
    }
  }

  /** `mockCommandExecution(command)`, without its delay: every command gets some output. */
  function MockResponse(command: string): (r: string)
    ensures r != []
  {
    var lower := Lower(command);
    FirstHitNonEmpty(Responses, lower);
    var hit := FirstHit(Responses, lower);
    if hit.Some? then hit.value
    else if StartsWith(lower, "python ") && Includes(lower, ".py") then ScriptOutput
    else if StartsWith(lower, "pip install") then PipOutput(PipPackage(command))
    else FallbackOutput(command)
  }

  /** The lookup loop over the table's entries, in declaration order, returning at the first hit. */
  method LookupResponse(lower: string) returns (r: Option<string>)
    ensures r == FirstHit(Responses, lower)
  {
    var i := 0;
    while i < |Responses|
      invariant 0 <= i <= |Responses|
      invariant FirstHit(Responses, lower) == FirstHit(Responses[i..], lower)
    {
      var (cmd, response) := Responses[i];
      assert Responses[i..][1..] == Responses[i + 1..];
      if Includes(lower, cmd) {
        return Some(response);
      }
      i := i + 1;
    }
    return None;
  }

  method MockCommandExecution(command: string) returns (output: string)
    ensures output == MockResponse(command)
  {
    var lowerCommand := Lower(command);
    var hit := LookupResponse(lowerCommand);
    if hit.Some? {
      return hit.value;
    }
    if StartsWith(lowerCommand, "python ") && Includes(lowerCommand, ".py") {
      return ScriptOutput;
    }
    if StartsWith(lowerCommand, "pip install") {
      var parts := Split(command, ' ');
      var package := if |parts| > 2 && parts[2] != "" then parts[2] else "package";
      return PipOutput(package);
    }
    return FallbackOutput(command);
  }

  /** Any command containing "ls" in any letter case gets the file listing, since that key is tried first. */
  lemma LsWinsFirst(command: string)
    requires Includes(Lower(command), "ls")
    ensures MockResponse(command) == LsOutput
  {
  }

  /** So installing a package whose name contains "ls" lists the files instead. */
  lemma PipInstallToolsListsFiles(c: string)
    requires c == "pip install tools"
    ensures MockResponse(c) == LsOutput
  {
    assert IsLowerCase(c);
    LowerOfLowerCase(c);
    assert OccursAt(c, "ls", 15);
    IncludesShifted(c, "ls", 15);
  }

  /** `python main.py` reaches its own entry: the two earlier keys do not occur in it. */
  lemma PythonMainResponse(c: string)
    requires c == "python main.py"
    ensures MockResponse(c) == Responses[2].1
  {
    PythonMainIsLower(c);
    PythonMainHit(c);
  }

  lemma PythonMainIsLower(c: string)
    requires c == "python main.py"
    ensures Lower(c) == c
  {
    assert IsLowerCase(c);
    LowerOfLowerCase(c);
  }

  lemma PythonMainHit(c: string)
    requires c == "python main.py"
    ensures FirstHit(Responses, c) == Some(Responses[2].1)
  {
    FirstKeys();
    PythonMainLacks(c);
    IncludesSelf(c);
    assert !Includes(c, Responses[0].0) && !Includes(c, Responses[1].0) && Includes(c, Responses[2].0);
    assert forall j :: 0 <= j < 2 ==> !Includes(c, Responses[j].0) by {
      forall j | 0 <= j < 2 ensures !Includes(c, Responses[j].0) {
        assert j == 0 || j == 1;
      }
    }
    FirstHitSpec(Responses, c, 2);
  }

  lemma FirstKeys()
    ensures Responses[0].0 == "ls" && Responses[1].0 == "pwd" && Responses[2].0 == "python main.py"
  {
  }

  lemma PythonMainLacks(c: string)
    requires c == "python main.py"
    ensures !Includes(c, "ls") && !Includes(c, "pwd")
  {
    LacksCharNotIncluded(c, "ls", 0);
    LacksCharNotIncluded(c, "pwd", 1);
  }

  lemma IncludesSelf(c: string)
    ensures Includes(c, c)
  {
    assert OccursAt(c, c, 0);
    IncludesShifted(c, c, 0);
  }

  /** Without a table hit, the reply is decided by the prefix tests, in order. */
  lemma MissFallbacks(command: string)
    requires forall j :: 0 <= j < |Responses| ==> !Includes(Lower(command), Responses[j].0)
    ensures IsScript(command) ==> MockResponse(command) == ScriptOutput
    ensures !IsScript(command) && StartsWith(Lower(command), "pip install") ==>
      MockResponse(command) == PipOutput(PipPackage(command))
    ensures !IsScript(command) && !StartsWith(Lower(command), "pip install") ==>
      MockResponse(command) == FallbackOutput(command)
  {
    FirstHitNone(Responses, Lower(command));
  }

  /** The package reported is the word after `pip install`, or "package" when there is none. */
  lemma PipPackageOfInstall(name: string)
    requires ' ' !in name
    ensures PipPackage("pip install " + name) == if name == "" then "package" else name
  {
    SplitWithout(name, ' ');
    SplitWithout("install", ' ');
    SplitWithout("pip", ' ');
    assert "pip install " + name == "pip" + [' '] + ("install" + [' '] + name);
    SplitAppend("install", name, ' ');
    SplitAppend("pip", "install" + [' '] + name, ' ');
  }

  /** The generic reply quotes the command with its original letter case. */
  lemma FallbackQuotesCommand(command: string)
    ensures OccursAt(FallbackOutput(command), command, 9)
  {
    assert FallbackOutput(command)[9..9 + |command|] == command;
  }

  // ---------------------------------------------------------------------
  // The line editor
  // ---------------------------------------------------------------------

  const Enter := "\r"
  const Backspace := "\U{007F}"

  /** `data >= ' '` on strings: true exactly when the first character is at least a space. */
  predicate AtLeastSpace(data: string) {
    data != [] && data[0] >= ' '
  }

  /**
   * The line being typed after one chunk of keystroke data. Editing only
   * touches the end of the line: the old and the new line are prefixes of
   * one another, and only Enter removes more than one character.
   */
  function LineAfter(line: string, data: string): (r: string)
    ensures r <= line || line <= r
    ensures data != Enter ==> |r| >= |line| - 1
    ensures data == Enter ==> r == ""
    ensures data == Backspace ==> r == if line == "" then "" else line[..|line| - 1]
    ensures data != Enter && data != Backspace ==> r == if AtLeastSpace(data) then line + data else line
  {
    if data == Enter then ""
    else if data == Backspace then (if |line| > 0 then line[..|line| - 1] else line)
    else if AtLeastSpace(data) then line + data
    else line
  }

  /** The command an Enter submits: the trimmed line, unless it is blank. */
  function Submitted(line: string, data: string): (r: Option<string>)
    ensures r.Some? <==> data == Enter && !IsBlank(line)
  {
    if data == Enter && !IsBlank(line) then Some(Trim(line)) else None
  }

  /** Typing a printable character and then Backspace restores the line. */
  lemma BackspaceUndoesTyping(line: string, c: char)
    requires c >= ' ' && c != '\U{007F}'
    ensures LineAfter(LineAfter(line, [c]), Backspace) == line
  {
    assert [c] != Enter;
    assert [c] != Backspace;
    assert (line + [c])[..|line|] == line;
  }

  /** Feeding keystroke data chunk by chunk. */
  function Feed(line: string, keys: seq<string>): string
    decreases |keys|
  {
    if keys == [] then line else Feed(LineAfter(line, keys[0]), keys[1..])
  }

  /** The single-character chunks of a string. */
  function Chars(s: string): (r: seq<string>)
    ensures |r| == |s| && forall i :: 0 <= i < |s| ==> r[i] == [s[i]]
  {
    if s == [] then [] else [[s[0]]] + Chars(s[1..])
  }

  /** Typing printable characters one at a time appends them to the line. */
  lemma {:induction false} TypingAppends(line: string, s: string)
    requires forall i :: 0 <= i < |s| ==> s[i] >= ' ' && s[i] != '\U{007F}'
    ensures Feed(line, Chars(s)) == line + s
    decreases |s|
  {
    if s != [] {
      var c := [s[0]];
      assert c != Enter && c != Backspace && AtLeastSpace(c);
      assert LineAfter(line, c) == line + c;
      assert Chars(s)[0] == c && Chars(s)[1..] == Chars(s[1..]);
      assert Feed(line, Chars(s)) == Feed(line + c, Chars(s[1..]));
      TypingAppends(line + c, s[1..]);
      assert line + c + s[1..] == line + s;
    }
  }

  /** Feeding two batches of keystrokes is feeding the first and then the second. */
  lemma {:induction false} FeedAppend(line: string, a: seq<string>, b: seq<string>)
    ensures Feed(line, a + b) == Feed(Feed(line, a), b)
    decreases |a|
  {
    if a != [] {
      assert (a + b)[1..] == a[1..] + b;
      FeedAppend(LineAfter(line, a[0]), a[1..], b);
    } else {
      assert a + b == b;
    }
  }

  /**
   * Typing printable characters and pressing Enter submits the trimmed
   * typed line (nothing when it is blank) and leaves an empty line.
   */
  lemma TypeThenEnter(line: string, s: string)
    requires forall i :: 0 <= i < |s| ==> s[i] >= ' ' && s[i] != '\U{007F}'
    ensures Feed(line, Chars(s) + [Enter]) == ""
    ensures Submitted(Feed(line, Chars(s)), Enter) == if IsBlank(line + s) then None else Some(Trim(line + s))
  {
    TypingAppends(line, s);
    FeedAppend(line, Chars(s), [Enter]);
  }

  // ---------------------------------------------------------------------
  // The terminal panel
  // ---------------------------------------------------------------------

  /** What a command handler supplied by the host did: returned text, or threw (an `Error` with a message, or some other value). */
  datatype Outcome = Returned(output: string) | Threw(message: Option<string>)

  /** A `writeln` or a `write` on the screen. */
  datatype Write = Line(text: string) | Text(text: string)

  /** The lines the end of a command writes. */
  function OutcomeLines(o: Outcome): (r: seq<Write>)
    ensures o.Returned? && o.output == "" <==> r == []
  {
    match o
    case Returned(out) => if out != "" then [Line(out)] else []
    case Threw(Some(msg)) => [Line("Error: " + msg)]
    case Threw(None) => [Line("Error: Command failed")]
  }

  /** The outcome of running a command: the mock runner when the host supplies no handler. */
  function CommandOutcome(command: string, handler: Option<Outcome>): Outcome {
    if handler.Some? then handler.value else Returned(MockResponse(command))
  }

  /** Without a host handler a command never fails and always writes its mock reply. */
  lemma MockNeverFails(command: string)
    ensures OutcomeLines(CommandOutcome(command, None)) == [Line(MockResponse(command))]
  {
  }

  const Welcome: seq<Write> := [
    Line("Welcome to Backend Development Terminal"),
    Line("Type your commands here or use the Run button to execute code."),
    Line(""),
    Text("$ ")]

  /** The command the Run button always runs. */
  const RunCommand := "python main.py"

  /** The mock runner on the Run button's fixed command answers with the `python main.py` entry. */
  method RunMain(command: string) returns (output: string)
    requires command == RunCommand
    ensures output == Responses[2].1
  {
    output := MockCommandExecution(command);
    PythonMainResponse(command);
  }

  class TerminalPanel {
    var currentLine: string
    var isRunning: bool
    var currentCommand: string
    var screen: seq<Write>

    constructor ()
      ensures currentLine == "" && !isRunning && currentCommand == "" && screen == Welcome
    {
      currentLine := "";
      isRunning := false;
      currentCommand := "";
      screen := Welcome;
    }

    /** The synchronous start of `executeCommand`: the flags are raised. */
    method StartCommand(command: string)
      modifies this
      ensures isRunning && currentCommand == command
      ensures currentLine == old(currentLine) && screen == old(screen)
    {
      isRunning := true;
      currentCommand := command;
    }

    /** The end of `executeCommand`: the outcome is written (non-empty output only) and the flags are reset. */
    method FinishCommand(command: string, handler: Option<Outcome>)
      modifies this
      ensures screen == old(screen) + OutcomeLines(CommandOutcome(command, handler))
      ensures !isRunning && currentCommand == ""
      ensures currentLine == old(currentLine)
    {
      var outcome: Outcome;
      if handler.Some? {
        outcome := handler.value;
      } else {
        var output := MockCommandExecution(command);
        outcome := Returned(output);
      }
      match outcome {
        case Returned(output) =>
          if output != "" {
            screen := screen + [Line(output)];
          }
        case Threw(message) =>
          assert "Error: " + "Command failed" == "Error: Command failed";
          screen := screen + [Line("Error: " + (if message.Some? then message.value else "Command failed"))];
      }
      isRunning := false;
      currentCommand := "";
    }

    /**
     * The `onData` handler up to the point where a submitted command awaits
     * its output: Enter starts the trimmed command when the line is not
     * blank and always empties the line; Backspace erases one character;
     * data from a space upwards is typed; anything else is ignored.
     */
    method OnData(data: string)
      modifies this
      ensures currentLine == LineAfter(old(currentLine), data)
      ensures Submitted(old(currentLine), data).Some? ==>
        isRunning && currentCommand == Submitted(old(currentLine), data).value
      ensures Submitted(old(currentLine), data).None? ==>
        isRunning == old(isRunning) && currentCommand == old(currentCommand)
      ensures data == Enter ==> screen == old(screen) + [Line(""), Text("$ ")]
      ensures data == Backspace ==>
        screen == old(screen) + (if old(currentLine) == "" then [] else [Text("\U{0008} \U{0008}")])
      ensures data != Enter && data != Backspace ==>
        screen == old(screen) + (if AtLeastSpace(data) then [Text(data)] else [])
    {
      if data == "\r" {
        screen := screen + [Line("")];
        if !IsBlank(currentLine) {
          StartCommand(Trim(currentLine));
        }
        currentLine := "";
        screen := screen + [Text("$ ")];
      } else if data == "\U{007F}" {
        if |currentLine| > 0 {
          currentLine := currentLine[..|currentLine| - 1];
          screen := screen + [Text("\U{0008} \U{0008}")];
        }
      } else if data != "" && data[0] >= ' ' {
        currentLine := currentLine + data;
        screen := screen + [Text(data)];
      }
    }

    /** `runCurrentFile()`: always runs `python main.py` through the mock runner. */
    method RunCurrentFile()
      modifies this
      ensures screen == old(screen) + [Line(RunCommand), Line(Responses[2].1), Text("$ ")]
      ensures !isRunning
      ensures currentLine == old(currentLine) && currentCommand == old(currentCommand)
    {
      isRunning := true;
      screen := screen + [Line(RunCommand)];
      var output := RunMain(RunCommand);
      screen := screen + [Line(output)];
      isRunning := false;
      screen := screen + [Text("$ ")];
    }

    /** `stopExecution()`: prints the interrupt and lowers the running flag; the command name stays. */
    method StopExecution()
      modifies this
      ensures screen == old(screen) + [Line("^C"), Line("Process interrupted"), Text("$ ")]
      ensures !isRunning
      ensures currentLine == old(currentLine) && currentCommand == old(currentCommand)
    {
      screen := screen + [Line("^C"), Line("Process interrupted"), Text("$ ")];
      isRunning := false;
    }
  }
}
