/**
 * The code-execution hook: each run posts the code to an execution
 * service and turns the reply (or its absence) into a result, which
 * becomes the last result and the head of a newest-first history of at
 * most ten entries. When the service answers with an error status, a
 * simulated output is made up from the code's print statements.
 */
module CodeExecution {
  import opened JsText

  // ---------------------------------------------------------------------
  // The simulated output
  // ---------------------------------------------------------------------

  predicate IsQuote(c: char) { c == '\'' || c == '"' }

  /** The characters a regular-expression `.` does not match. */
  predicate IsLineTerminator(c: char) {
    c == '\n' || c == '\r' || c == '\U{2028}' || c == '\U{2029}'
  }

  /** No line terminator lies in `s[j..m]`, so `.*` can cover it. */
  predicate Clean(s: string, j: nat, m: nat) {
    forall k :: j <= k < m && k < |s| ==> !IsLineTerminator(s[k])
  }

  /**
   * The lazy `(.*?)['"]\)` part of the pattern, from content start `j`:
   * the first index `m` where a quote followed by `)` closes the content,
   * with no line terminator before it.
   */
  function LazyEnd(s: string, j: nat): (r: Option<nat>)
    ensures r.Some? ==> j <= r.value && r.value + 1 < |s| && IsQuote(s[r.value]) && s[r.value + 1] == ')'
    ensures r.Some? ==> forall k :: j <= k < r.value ==> !IsLineTerminator(s[k])
    decreases |s| - j
  {
    if j + 1 < |s| && IsQuote(s[j]) && s[j + 1] == ')' then Some(j)
    else if j < |s| && !IsLineTerminator(s[j]) then LazyEnd(s, j + 1)
    else None
  }

  /**
   * What makes the capture lazy: the end found is the FIRST quote followed
   * by `)`, and there is no end exactly when every such quote lies beyond a
   * line terminator.
   */
  lemma {:induction false} LazyEndFirst(s: string, j: nat)
    ensures LazyEnd(s, j).Some? ==>
      forall k :: j <= k < LazyEnd(s, j).value ==> !(IsQuote(s[k]) && s[k + 1] == ')')
    ensures LazyEnd(s, j).None? ==>
      forall m :: j <= m && m + 1 < |s| && IsQuote(s[m]) && s[m + 1] == ')' ==> !Clean(s, j, m)
    decreases |s| - j
  {
    if !(j + 1 < |s| && IsQuote(s[j]) && s[j + 1] == ')') && j < |s| && !IsLineTerminator(s[j]) {
      LazyEndFirst(s, j + 1);
    }
  }

  /** A match of `prefix['"](.*?)['"]\)` starting at `p`: the captured text and the index after the match. */
  function MatchAt(s: string, p: nat, prefix: string): (r: Option<(string, nat)>)
    ensures r.Some? ==> p < r.value.1 <= |s|
    ensures r.Some? ==> forall k :: 0 <= k < |r.value.0| ==> !IsLineTerminator(r.value.0[k])
  {
    var q := p + |prefix|;
    if OccursAt(s, prefix, p) && q < |s| && IsQuote(s[q]) then
      match LazyEnd(s, q + 1)
      case Some(m) =>
        ghost var t := s[q + 1..m];
        assert forall k :: 0 <= k < |t| ==> t[k] == s[q + 1 + k];
        Some((s[q + 1..m], m + 2))
      case None => None
    else None
  }

  /** The captures of all matches of the global pattern, scanning left to right from `p`. */
  function Captures(s: string, p: nat, prefix: string): seq<string>
    decreases |s| - p
  {
    if p >= |s| then []
    else match MatchAt(s, p, prefix)
      case Some((text, next)) => [text] + Captures(s, next, prefix)
      case None => Captures(s, p + 1, prefix)
  }

  /** No captured text spans a line break. */
  lemma {:induction false} CapturesOnOneLine(s: string, p: nat, prefix: string)
    ensures forall i :: 0 <= i < |Captures(s, p, prefix)| ==>
      forall k :: 0 <= k < |Captures(s, p, prefix)[i]| ==> !IsLineTerminator(Captures(s, p, prefix)[i][k])
    decreases |s| - p
  {
    if p < |s| {
      match MatchAt(s, p, prefix)
      case Some((text, next)) =>
        CapturesOnOneLine(s, next, prefix);
      case None =>
        CapturesOnOneLine(s, p + 1, prefix);
    }
  }

  /**
   * The output printed by `print(...)`/`console.log(...)` calls of string
   * literals, one captured text per line, or the fallback when there is none.
   */
  function PrintedOrElse(code: string, call: string, fallback: string): (r: string)
    ensures Captures(code, 0, call) == [] ==> r == fallback
    ensures Captures(code, 0, call) != [] ==> Split(r, '\n') == Captures(code, 0, call)
  {
    var found := Captures(code, 0, call);
    CapturesNeedCall(code, 0, call);
    if Includes(code, call) && |found| > 0 then
      JoinedCaptures(code, call);
      Join(found, '\n')
    else fallback
  }

  /** A capture needs an occurrence of the call, so the `includes` test never decides alone. */
  lemma {:induction false} CapturesNeedCall(s: string, p: nat, prefix: string)
    ensures Captures(s, p, prefix) != [] ==> Includes(s, prefix)
    decreases |s| - p
  {
    if p < |s| {
      match MatchAt(s, p, prefix)
      case Some(_) =>
        IncludesShifted(s, prefix, p);
      case None =>
        CapturesNeedCall(s, p + 1, prefix);
    }
  }

  /** Joining the captures with line breaks and splitting again gives them back. */
  lemma JoinedCaptures(code: string, call: string)
    requires |Captures(code, 0, call)| > 0
    ensures Split(Join(Captures(code, 0, call), '\n'), '\n') == Captures(code, 0, call)
  {
    var found := Captures(code, 0, call);
    CapturesOnOneLine(code, 0, call);
    forall i | 0 <= i < |found| ensures '\n' !in found[i] {
      assert forall k :: 0 <= k < |found[i]| ==> found[i][k] != '\n';
    }
    SplitJoin(found, '\n');
  }

  /** `getSimulatedOutput(code, language)`. */
  function SimulatedOutput(code: string, language: string): (r: string)
    ensures language == "python" && Captures(code, 0, "print(") != [] ==>
      Split(r, '\n') == Captures(code, 0, "print(")
    ensures language == "javascript" && Captures(code, 0, "console.log(") != [] ==>
      Split(r, '\n') == Captures(code, 0, "console.log(")
    ensures language != "python" && language != "javascript" ==> r == language + " code executed successfully!"
  {
    if language == "python" then PrintedOrElse(code, "print(", "Python code executed successfully!")
    else if language == "javascript" then PrintedOrElse(code, "console.log(", "JavaScript code executed successfully!")
    else language + " code executed successfully!"
  }

  /** Python code without `print(` and other languages get the fixed success messages. */
  lemma SimulatedFallbacks(code: string, language: string)
    ensures language == "python" && !Includes(code, "print(") ==>
      SimulatedOutput(code, language) == "Python code executed successfully!"
    ensures language == "javascript" && !Includes(code, "console.log(") ==>
      SimulatedOutput(code, language) == "JavaScript code executed successfully!"
    ensures language != "python" && language != "javascript" ==>
      SimulatedOutput(code, language) == language + " code executed successfully!"
  {
  }

  /** Plain text: no quote and no line terminator. */
  predicate Plain(t: string) {
    forall k :: 0 <= k < |t| ==> !IsQuote(t[k]) && !IsLineTerminator(t[k])
  }

  lemma {:induction false} LazyEndOverPlain(s: string, j: nat, n: nat)
    requires j + n + 1 < |s| && IsQuote(s[j + n]) && s[j + n + 1] == ')'
    requires forall k :: j <= k < j + n ==> !IsQuote(s[k]) && !IsLineTerminator(s[k])
    ensures LazyEnd(s, j) == Some(j + n)
    decreases n
  {
    if n > 0 {
      LazyEndOverPlain(s, j + 1, n - 1);
    }
  }

  /** A single call on a plain string literal prints exactly that string. */
  lemma SinglePrintCaptured(call: string, t: string)
    requires Plain(t)
    ensures Captures(call + "'" + t + "')", 0, call) == [t]
  {
    var s := call + "'" + t + "')";
    var q := |call|;
    assert s[..q] == call;
    assert OccursAt(s, call, 0);
    assert s[q] == '\'';
    LazyEndOverPlain(s, q + 1, |t|);
    assert s[q + 1..q + 1 + |t|] == t;
    assert MatchAt(s, 0, call) == Some((t, |s|));
  }

  /** Text in front of the scanned part does not change where the lazy capture ends. */
  lemma {:induction false} LazyEndShift(pre: string, s: string, j: nat)
    ensures LazyEnd(pre + s, |pre| + j) ==
      if LazyEnd(s, j).Some? then Some(|pre| + LazyEnd(s, j).value) else None
    decreases |s| - j
  {
    var t := pre + s;
    if j < |s| {
      assert t[|pre| + j] == s[j];
    }
    if j + 1 < |s| {
      assert t[|pre| + j + 1] == s[j + 1];
    }
    if !(j + 1 < |s| && IsQuote(s[j]) && s[j + 1] == ')') && j < |s| && !IsLineTerminator(s[j]) {
      LazyEndShift(pre, s, j + 1);
    }
  }

  lemma OccursAtShift(pre: string, s: string, p: nat, sub: string)
    ensures OccursAt(pre + s, sub, |pre| + p) == OccursAt(s, sub, p)
  {
    if p + |sub| <= |s| {
      assert (pre + s)[|pre| + p..|pre| + p + |sub|] == s[p..p + |sub|];
    }
  }

  /** The opening of a match: the call text followed by a quote at `p`. */
  predicate Opens(s: string, p: nat, prefix: string) {
    OccursAt(s, prefix, p) && p + |prefix| < |s| && IsQuote(s[p + |prefix|])
  }

  lemma OpensShift(pre: string, s: string, p: nat, prefix: string)
    ensures Opens(pre + s, |pre| + p, prefix) == Opens(s, p, prefix)
  {
    OccursAtShift(pre, s, p, prefix);
    if p + |prefix| < |s| {
      assert (pre + s)[|pre| + p + |prefix|] == s[p + |prefix|];
    }
  }

  /** The body of `MatchAt` once the opening is known. */
  lemma MatchAtOpen(s: string, p: nat, prefix: string)
    requires Opens(s, p, prefix)
    ensures var q := p + |prefix|;
      MatchAt(s, p, prefix) ==
        if LazyEnd(s, q + 1).Some? then Some((s[q + 1..LazyEnd(s, q + 1).value], LazyEnd(s, q + 1).value + 2)) else None
  {
  }

  /** Without an opening there is no match. */
  lemma MatchAtClosed(s: string, p: nat, prefix: string)
    requires !Opens(s, p, prefix)
    ensures MatchAt(s, p, prefix).None?
  {
  }

  /** The shifted match once the opening and the end are known. */
  lemma MatchAtShiftEnd(pre: string, s: string, p: nat, prefix: string, m: nat)
    requires Opens(s, p, prefix) && Opens(pre + s, |pre| + p, prefix)
    requires LazyEnd(s, p + |prefix| + 1) == Some(m)
    requires LazyEnd(pre + s, |pre| + p + |prefix| + 1) == Some(|pre| + m)
    ensures MatchAt(s, p, prefix) == Some((s[p + |prefix| + 1..m], m + 2))
    ensures MatchAt(pre + s, |pre| + p, prefix) == Some((s[p + |prefix| + 1..m], |pre| + m + 2))
  {
    MatchAtOpen(s, p, prefix);
    MatchAtOpen(pre + s, |pre| + p, prefix);
    assert (pre + s)[|pre| + p + |prefix| + 1..|pre| + m] == s[p + |prefix| + 1..m];
  }

  /** A match found after a prefix is the match found without it, moved by the prefix's length. */
  lemma MatchAtShift(pre: string, s: string, p: nat, prefix: string)
    ensures MatchAt(s, p, prefix).None? ==> MatchAt(pre + s, |pre| + p, prefix).None?
    ensures MatchAt(s, p, prefix).Some? ==>
      MatchAt(pre + s, |pre| + p, prefix) == Some((MatchAt(s, p, prefix).value.0, |pre| + MatchAt(s, p, prefix).value.1))
  {
    OpensShift(pre, s, p, prefix);
    if Opens(s, p, prefix) {
      var q := p + |prefix|;
      LazyEndShift(pre, s, q + 1);
      match LazyEnd(s, q + 1)
      case Some(m) =>
        MatchAtShiftEnd(pre, s, p, prefix, m);
      case None =>
        MatchAtOpen(s, p, prefix);
        MatchAtOpen(pre + s, |pre| + p, prefix);
    } else {
      MatchAtClosed(s, p, prefix);
      MatchAtClosed(pre + s, |pre| + p, prefix);
    }
  }

  /** Scanning after a prefix finds the same captures as scanning the rest alone. */
  lemma {:induction false} CapturesShift(pre: string, s: string, p: nat, prefix: string)
    ensures Captures(pre + s, |pre| + p, prefix) == Captures(s, p, prefix)
    decreases |s| - p
  {
    if p < |s| {
      MatchAtShift(pre, s, p, prefix);
      var m := MatchAt(s, p, prefix);
      if m.Some? {
        CapturesShift(pre, s, m.value.1, prefix);
      } else {
        CapturesShift(pre, s, p + 1, prefix);
      }
    }
  }

  /** One call printing the string literal `t`. */
  function PrintCall(call: string, t: string): string {
    call + "'" + t + "')"
  }

  /** A program printing each of `ts` on its own line. */
  function PrintProgram(call: string, ts: seq<string>): string
    requires |ts| >= 1
  {
    if |ts| == 1 then PrintCall(call, ts[0]) else PrintCall(call, ts[0]) + "\n" + PrintProgram(call, ts[1..])
  }

  /** A leading call on a plain literal is captured, and the scan goes on after it. */
  lemma PlainCallThen(call: string, t: string, rest: string)
    requires Plain(t)
    ensures Captures(PrintCall(call, t) + rest, 0, call) == [t] + Captures(rest, 0, call)
  {
    var line := PrintCall(call, t);
    var s := line + rest;
    var q := |call|;
    assert s[..q] == call;
    assert OccursAt(s, call, 0);
    assert s[q] == '\'';
    assert s[q + 1 + |t|] == '\'' && s[q + 2 + |t|] == ')';
    LazyEndOverPlain(s, q + 1, |t|);
    assert s[q + 1..q + 1 + |t|] == t;
    assert MatchAt(s, 0, call) == Some((t, |line|));
    CapturesShift(line, rest, 0, call);
  }

  /** A line break that cannot start a call is skipped. */
  lemma SkipLineBreak(call: string, rest: string)
    requires call != [] && call[0] != '\n'
    ensures Captures("\n" + rest, 0, call) == Captures(rest, 0, call)
  {
    assert ("\n" + rest)[0] != call[0];
    CapturesShift("\n", rest, 0, call);
  }

  /** Every call of a multi-line program on plain literals is captured, in order. */
  lemma {:induction false} EachPrintCaptured(call: string, ts: seq<string>)
    requires |ts| >= 1 && call != [] && call[0] != '\n'
    requires forall i :: 0 <= i < |ts| ==> Plain(ts[i])
    ensures Captures(PrintProgram(call, ts), 0, call) == ts
  {
    if |ts| == 1 {
      PlainCallThen(call, ts[0], "");
      assert PrintCall(call, ts[0]) + "" == PrintCall(call, ts[0]);
    } else {
      var rest := PrintProgram(call, ts[1..]);
      assert PrintProgram(call, ts) == PrintCall(call, ts[0]) + ("\n" + rest);
      PlainCallThen(call, ts[0], "\n" + rest);
      SkipLineBreak(call, rest);
      EachPrintCaptured(call, ts[1..]);
    }
  }

  /** The simulated output of such a program is its printed lines joined by line breaks. */
  lemma {:induction false} PrintProgramOutput(call: string, ts: seq<string>, fallback: string)
    requires |ts| >= 1 && call != [] && call[0] != '\n'
    requires forall i :: 0 <= i < |ts| ==> Plain(ts[i])
    ensures PrintedOrElse(PrintProgram(call, ts), call, fallback) == Join(ts, '\n')
  {
    var code := PrintProgram(call, ts);
    EachPrintCaptured(call, ts);
    var line := PrintCall(call, ts[0]);
    assert code[..|call|] == line[..|call|] == call;
    assert OccursAt(code, call, 0);
    IncludesShifted(code, call, 0);
  }

  /**
   * A Python program of `print('...')` lines, or a JavaScript one of
   * `console.log('...')` lines, simulates to exactly the printed texts, one
   * per line.
   */
  lemma SimulatedPrints(language: string, call: string, ts: seq<string>)
    requires (language == "python" && call == "print(") || (language == "javascript" && call == "console.log(")
    requires |ts| >= 1 && forall i :: 0 <= i < |ts| ==> Plain(ts[i])
    ensures SimulatedOutput(PrintProgram(call, ts), language) == Join(ts, '\n')
  {
    if language == "python" {
      PrintProgramOutput(call, ts, "Python code executed successfully!");
    } else {
      PrintProgramOutput(call, ts, "JavaScript code executed successfully!");
    }
  }

  // ---------------------------------------------------------------------
  // Results and history
  // ---------------------------------------------------------------------

  /** A result; the timestamp is not modelled. */
  datatype ExecutionResult = ExecutionResult(output: string, error: Option<string>, exitCode: int)

  /** The JSON body of a successful reply; each field may be missing. */
  datatype ReplyData = ReplyData(output: Option<string>, error: Option<string>, exitCode: Option<int>)

  /** What the request to the execution service came to. */
  datatype Reply =
    | Ok(data: ReplyData)
    | NotOk
    | Threw(message: Option<string>)  // an `Error` with a message, or another thrown value

  /** The result built for a reply. */
  function ResultOf(code: string, language: string, reply: Reply): (r: ExecutionResult)
    ensures reply.Ok? ==> r.error == reply.data.error
    ensures reply.Ok? ==>
      (r.output == "Code executed successfully!" <==>
       reply.data.output.None? || reply.data.output.value in {"", "Code executed successfully!"})
    ensures reply.NotOk? ==> r == ExecutionResult(SimulatedOutput(code, language), None, 0)
    ensures reply.Ok? && reply.data.output.Some? && reply.data.output.value != "" ==>
      r.output == reply.data.output.value
    ensures reply.Threw? ==> r.output == "" && r.exitCode == 1 && r.error.Some?
    ensures reply.Threw? && reply.message.Some? ==> r.error == reply.message
  {
    match reply
    case Ok(data) =>
      ExecutionResult(
        if data.output.Some? && data.output.value != "" then data.output.value else "Code executed successfully!",
        data.error,
        if data.exitCode.Some? && data.exitCode.value != 0 then data.exitCode.value else 0)
    case NotOk => ExecutionResult(SimulatedOutput(code, language), None, 0)
    case Threw(message) => ExecutionResult("", Some(if message.Some? then message.value else "Execution failed"), 1)
  }

  /** A missing exit code reads as 0, and a thrown non-`Error` value as "Execution failed". */
  lemma ResultDefaults(code: string, language: string, data: ReplyData)
    ensures data.exitCode.None? ==> ResultOf(code, language, Ok(data)).exitCode == 0
    ensures data.exitCode.Some? ==> ResultOf(code, language, Ok(data)).exitCode == data.exitCode.value
    ensures ResultOf(code, language, Threw(None)).error == Some("Execution failed")
  {
  }

  const HistoryLimit := 10

  /** `[result, ...prev.slice(0, 9)]`. */
  function Pushed(history: seq<ExecutionResult>, r: ExecutionResult): (h: seq<ExecutionResult>)
    ensures |h| <= HistoryLimit && |h| == if |history| < HistoryLimit then |history| + 1 else HistoryLimit
    ensures h[0] == r && h[1..] == history[..|h| - 1]
  {
    [r] + (if |history| <= HistoryLimit - 1 then history else history[..HistoryLimit - 1])
  }

  function Reverse<T>(s: seq<T>): (r: seq<T>)
    ensures |r| == |s| && forall i :: 0 <= i < |s| ==> r[i] == s[|s| - 1 - i]
  {
    if s == [] then [] else Reverse(s[1..]) + [s[0]]
  }

  /** The history after a series of runs, oldest run first. */
  function PushAll(history: seq<ExecutionResult>, runs: seq<ExecutionResult>): seq<ExecutionResult>
    decreases |runs|
  {
    if runs == [] then history else PushAll(Pushed(history, runs[0]), runs[1..])
  }

  function Min(a: int, b: int): int { if a < b then a else b }

  /** From an empty history, the history holds the last ten runs at most, newest first. */
  lemma {:induction false} HistoryIsLastTen(runs: seq<ExecutionResult>)
    ensures PushAll([], runs) == Reverse(runs)[..Min(HistoryLimit, |runs|)]
  {
    PushAllWindow([], runs);
    assert Reverse(runs) + [] == Reverse(runs);
  }

  /** Pushing runs keeps the first ten of the runs, newest first, followed by the old history. */
  lemma {:induction false} PushAllWindow(history: seq<ExecutionResult>, runs: seq<ExecutionResult>)
    requires |history| <= HistoryLimit
    ensures PushAll(history, runs) == (Reverse(runs) + history)[..Min(HistoryLimit, |runs| + |history|)]
    decreases |runs|
  {
    if runs != [] {
      var h1 := Pushed(history, runs[0]);
      PushAllWindow(h1, runs[1..]);
      var n := Min(HistoryLimit, |runs| + |history|);
      assert Reverse(runs) == Reverse(runs[1..]) + [runs[0]];
      assert h1 == ([runs[0]] + history)[..|h1|];
      var lhs := (Reverse(runs[1..]) + h1)[..Min(HistoryLimit, |runs| - 1 + |h1|)];
      var rhs := (Reverse(runs) + history)[..n];
      assert |lhs| == |rhs|;
      forall i | 0 <= i < |lhs| ensures lhs[i] == rhs[i] {
        if i < |runs| - 1 {
        } else {
          assert lhs[i] == h1[i - (|runs| - 1)];
        }
      }
    }
  }

  /** The hook's state. */
  class Executor {
    var isExecuting: bool
    var lastResult: Option<ExecutionResult>
    var executionHistory: seq<ExecutionResult>

    /** The history holds at most ten results, and the last result is its head (none when it is empty). */
    ghost predicate Valid()
      reads this
    {
      |executionHistory| <= HistoryLimit
      && lastResult == (if executionHistory == [] then None else Some(executionHistory[0]))
    }

    constructor ()
      ensures Valid() && !isExecuting && lastResult == None && executionHistory == []
    {
      isExecuting := false;
      lastResult := None;
      executionHistory := [];
    }

    /** The synchronous start of `executeCode`. */
    method BeginExecution()
      requires Valid()
      modifies this
      ensures Valid() && isExecuting
      ensures lastResult == old(lastResult) && executionHistory == old(executionHistory)
    {
      isExecuting := true;
    }

    /** The rest of `executeCode` once the request has settled: record the result, then lower the flag. */
    method FinishExecution(code: string, language: string, reply: Reply) returns (result: ExecutionResult)
      requires Valid()
      modifies this
      ensures Valid() && !isExecuting
      ensures result == ResultOf(code, language, reply)
      ensures lastResult == Some(result)
      ensures executionHistory == Pushed(old(executionHistory), result)
    {
      match reply {
        case Ok(data) =>
          result := ExecutionResult(
            if data.output.Some? && data.output.value != "" then data.output.value else "Code executed successfully!",
            data.error,
            if data.exitCode.Some? && data.exitCode.value != 0 then data.exitCode.value else 0);
        case NotOk =>
          result := ExecutionResult(SimulatedOutput(code, language), None, 0);
        case Threw(message) =>
          result := ExecutionResult("", Some(if message.Some? then message.value else "Execution failed"), 1);
      }
      lastResult := Some(result);
      var kept := if |executionHistory| <= HistoryLimit - 1 then executionHistory else executionHistory[..HistoryLimit - 1];
      executionHistory := [result] + kept;
      isExecuting := false;
    }

    /** `executeCode(code, language)` with the request's outcome as a parameter. */
    method ExecuteCode(code: string, language: string, reply: Reply) returns (result: ExecutionResult)
      requires Valid()
      modifies this
      ensures Valid() && !isExecuting
      ensures result == ResultOf(code, language, reply)
      ensures lastResult == Some(result)
      ensures executionHistory == Pushed(old(executionHistory), result)
    {
      BeginExecution();
      result := FinishExecution(code, language, reply);
    }

    /** `clearHistory()`. */
    method ClearHistory()
      requires Valid()
      modifies this
      ensures Valid()
      ensures executionHistory == [] && lastResult == None && isExecuting == old(isExecuting)
    {
      executionHistory := [];
      lastResult := None;
    }
  }
}
