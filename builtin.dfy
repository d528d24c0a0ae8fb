/**
 * builtin.c: the exit, env, ';' and '&&'/'||' built-ins. Running a command
 * line through the system shell (get_system, system) is an oracle `sys`
 * from the command text to its status; exiting the process is an outcome.
 */
module Builtin {
  import opened Wrappers
  import opened CLib
  import opened Environment

  // ---------------------------------------------------------------------
  // execute_exit

  /** Whether execute_exit ends the process, and with which exit() argument. */
  datatype ExitOutcome = Exits(status: int) | Returns

  /** What execute_exit does and writes to standard error. */
  datatype ExitStep = ExitStep(outcome: ExitOutcome, diagnostic: string)

  /** execute_exit's decision on the already trimmed line `t`. */
  function ExitDecision(t: string): (r: ExitStep)
    ensures r.outcome.Returns? <==> StartsWith(t, "exit ") && !IsInteger(t[5..])
    ensures r.outcome.Exits? ==> r.outcome.status >= 0
    ensures r.diagnostic != [] ==> r.outcome == Exits(2)
    ensures t != "exit" && !StartsWith(t, "exit ") ==> r == ExitStep(Exits(2), "Invalid command: " + t + "\n")
  {
    if t == "exit" then ExitStep(Exits(0), "")
    else if StartsWith(t, "exit ") then
      var arg := t[5..];
      if !IsInteger(arg) then ExitStep(Returns, "")
      else if Atoi(arg) >= 0 then ExitStep(Exits(Atoi(arg)), "")
      else ExitStep(Exits(2), "./hsh: 1: exit: Illegal number: " + arg + "\n")
    else ExitStep(Exits(2), "Invalid command: " + t + "\n")
  }

  /**
   * The trimming half of execute_exit: skip leading spaces and tabs, then
   * shorten the length past trailing ones.
   */
  method TrimBlanks(input: string) returns (t: string)
    ensures t == Trim(input, " \t")
  {
    var start := 0;
    while start < |input| && input[start] in " \t"
      invariant start <= |input|
      invariant TrimLeft(input[start..], " \t") == TrimLeft(input, " \t")
    {
      assert input[start..][1..] == input[start + 1..];
      start := start + 1;
    }
    var rest := input[start..];
    var length: nat := |rest|;
    assert rest[..|rest|] == rest;
    while length > 0 && rest[length - 1] in " \t"
      invariant length <= |rest|
      invariant TrimRight(rest[..length], " \t") == TrimRight(rest, " \t")
    {
      assert rest[..length][..length - 1] == rest[..length - 1];
      length := length - 1;
    }
    assert rest[..|rest|] == rest;
    t := rest[..length];
  }

  /** execute_exit: trim, then decide. */
  method ExecuteExit(input: string) returns (outcome: ExitOutcome, diagnostic: string)
    ensures ExitStep(outcome, diagnostic) == ExitDecision(Trim(input, " \t"))
  {
    var t := TrimBlanks(input);
    if t == "exit" {
      return Exits(0), "";
    }
    if |t| >= 5 && t[..5] == "exit " {
      var arg := t[5..];
      if IsInteger(arg) {
        var status := Atoi(arg);
        if status >= 0 {
          return Exits(status), "";
        }
        return Exits(2), "./hsh: 1: exit: Illegal number: " + arg + "\n";
      }
      return Returns, "";
    }
    return Exits(2), "Invalid command: " + t + "\n";
  }

  lemma {:induction false} DecimalIsWord(n: nat)
    ensures DecimalString(n) != []
    ensures DecimalString(n)[0] !in " \t" && DecimalString(n)[|DecimalString(n)| - 1] !in " \t"
  {
    var d := DecimalString(n);
    assert IsDigit(d[0]) && IsDigit(d[|d| - 1]);
  }

  /**
   * "exit N", padded with spaces and tabs on either side, exits with the
   * number %d prints as N.
   */
  lemma {:induction false} ExitWithStatus(n: nat, before: string, after: string)
    requires forall i :: 0 <= i < |before| ==> before[i] in " \t"
    requires forall i :: 0 <= i < |after| ==> after[i] in " \t"
    ensures ExitDecision(Trim(before + "exit " + DecimalString(n) + after, " \t")) == ExitStep(Exits(n), "")
  {
    var line := "exit " + DecimalString(n);
    DecimalIsWord(n);
    assert before + "exit " + DecimalString(n) + after == before + line + after;
    TrimSurrounded(before, line, after, " \t");
    DecimalRoundTrip(n);
    assert line[5..] == DecimalString(n);
  }

  /** "exit -N" for N > 0 is refused: the message names the argument and the status is 2. */
  lemma {:induction false} ExitWithNegative(n: nat)
    requires n > 0
    ensures ExitDecision("exit -" + DecimalString(n)) ==
      ExitStep(Exits(2), "./hsh: 1: exit: Illegal number: -" + DecimalString(n) + "\n")
  {
    var arg := "-" + DecimalString(n);
    DecimalRoundTrip(n);
    ExitNegativeArgument(arg);
    assert "exit " + arg == "exit -" + DecimalString(n);
    assert "./hsh: 1: exit: Illegal number: " + arg == "./hsh: 1: exit: Illegal number: -" + DecimalString(n);
  }

  /** The decision on "exit " and an argument atoi reads as negative. */
  lemma {:induction false} ExitNegativeArgument(arg: string)
    requires IsInteger(arg) && Atoi(arg) < 0
    ensures ExitDecision("exit " + arg) == ExitStep(Exits(2), "./hsh: 1: exit: Illegal number: " + arg + "\n")
  {
    var line := "exit " + arg;
    assert line[..5] == "exit " && line[5..] == arg;
    assert |line| > 4;
  }

  /** Bare "exit", however padded, exits with 0. */
  lemma {:induction false} ExitBare(before: string, after: string)
    requires forall i :: 0 <= i < |before| ==> before[i] in " \t"
    requires forall i :: 0 <= i < |after| ==> after[i] in " \t"
    ensures ExitDecision(Trim(before + "exit" + after, " \t")) == ExitStep(Exits(0), "")
  {
    TrimSurrounded(before, "exit", after, " \t");
  }

  /**
   * Any other command, however padded, writes "Invalid command" naming the
   * trimmed text and exits with 2.
   */
  lemma {:induction false} ExitInvalid(before: string, command: string, after: string)
    requires forall i :: 0 <= i < |before| ==> before[i] in " \t"
    requires forall i :: 0 <= i < |after| ==> after[i] in " \t"
    requires command != [] && command[0] !in " \t" && command[|command| - 1] !in " \t"
    requires command != "exit" && !StartsWith(command, "exit ")
    ensures ExitDecision(Trim(before + command + after, " \t"))
      == ExitStep(Exits(2), "Invalid command: " + command + "\n")
  {
    TrimSurrounded(before, command, after, " \t");
  }

  // ---------------------------------------------------------------------
  // execute_env

  /**
   * execute_env: counts the entries, copies the pointers to a new array
   * (whose sorting is commented out) and writes each entry and a newline.
   */
  method ExecuteEnv(env: Environ) returns (written: string)
    ensures written == EnvText(env.vars)
  {
    var count := 0;
    while count < |env.vars|
      invariant count <= |env.vars|
    {
      count := count + 1;
    }
    var copied := new string[count];
    for i := 0 to count
      invariant copied[..i] == env.vars[..i]
    {
      copied[i] := env.vars[i];
    }
    assert copied[..] == env.vars;
    written := [];
    for i := 0 to count
      invariant written == EnvText(copied[..i])
    {
      assert copied[..i + 1][..i] == copied[..i];
      written := written + copied[i] + "\n";
    }
    assert copied[..count] == copied[..];
  }

  // ---------------------------------------------------------------------
  // execute_separator

  /**
   * execute_separator: every stringtok fragment on ';' and '\n', in order,
   * is run; its status is ignored, so no fragment is skipped.
   */
  method ExecuteSeparator(input: string, sys: string -> int) returns (ran: seq<string>, statuses: seq<int>)
    ensures ran == Tokens(input, ";\n")
    ensures |statuses| == |ran| && forall i :: 0 <= i < |ran| ==> statuses[i] == sys(ran[i])
  {
    ran, statuses := [], [];
    assert input[0..] == input;
    var command, pos := StringTok(input, 0, ";\n");
    ghost var rest := Pending(input, command, pos, ";\n");
    while command.Some?
      invariant pos <= |input|
      invariant rest == Pending(input, command, pos, ";\n")
      invariant Tokens(input, ";\n") == ran + rest
      invariant |statuses| == |ran| && forall i :: 0 <= i < |ran| ==> statuses[i] == sys(ran[i])
      decreases |input| - pos, command.Some?
    {
      var status := sys(command.value);
      ShiftFirst(ran, rest);
      ran, statuses := ran + [command.value], statuses + [status];
      command, pos := StringTok(input, pos, ";\n");
      rest := rest[1..];
    }
  }

  /**
   * "a;b": the fragments of a, then those of b, whatever a's commands
   * return.
   */
  lemma {:induction false} SeparatorRunsBoth(a: string, b: string)
    ensures Tokens(a + ";" + b, ";\n") == Tokens(a, ";\n") + Tokens(b, ";\n")
  {
    TokensAroundDelimiters(a, ";", b, ";\n");
  }

  // ---------------------------------------------------------------------
  // execute_logical_operator

  /** The fragments' text after removing leading and trailing spaces. */
  function TrimAll(ts: seq<string>): (r: seq<string>)
    ensures |r| == |ts|
    ensures forall i :: 0 <= i < |ts| ==> r[i] == Trim(ts[i], " ")
  {
    if ts == [] then [] else [Trim(ts[0], " ")] + TrimAll(ts[1..])
  }

  lemma TrimAllAppend(a: seq<string>, b: seq<string>)
    ensures TrimAll(a + b) == TrimAll(a) + TrimAll(b)
  {
  }

  /**
   * The commands execute_logical_operator runs: the delimiter set of
   * "&&||" is {'&', '|'}, so every such character separates fragments.
   */
  function Fragments(command: string): seq<string> {
    TrimAll(Tokens(command, "&&||"))
  }

  /** What execute_logical_operator does once its loop ends or exits. */
  datatype LogicalOutcome = ReturnsValue(result: int) | ExitsWith(status: int)

  /**
   * No trimmed fragment is "&&" or "||": the branches that test for them
   * are never taken.
   */
  lemma {:induction false} OperatorBranchesUnreachable(command: string)
    ensures forall f :: f in Fragments(command) ==> f != "&&" && f != "||"
  {
    var ts := Tokens(command, "&&||");
    forall f | f in Fragments(command) ensures f != "&&" && f != "||" {
      var k :| 0 <= k < |ts| && Fragments(command)[k] == f;
      var t := ts[k];
      assert IsToken(t, "&&||");
      var l := TrimLeft(t, " ");
      TrimLeftShape(t, " ");
      var r := TrimRight(l, " ");
      TrimRightShape(l, " ");
      if |r| > 0 {
        assert r[0] == l[0] == t[|t| - |l|];
        assert r[0] != '&' && r[0] != '|';
      }
    }
  }

  /**
   * A run of '&' and '|' splits the line into the fragments of each side,
   * in order.
   */
  lemma {:induction false} LogicalSplits(a: string, op: string, b: string)
    requires op != [] && forall i :: 0 <= i < |op| ==> op[i] in "&|"
    ensures Fragments(a + op + b) == Fragments(a) + Fragments(b)
  {
    forall i | 0 <= i < |op| ensures op[i] in "&&||" {
    }
    TokensAroundDelimiters(a, op, b, "&&||");
    TrimAllAppend(Tokens(a, "&&||"), Tokens(b, "&&||"));
  }

  /**
   * Trim one strtok fragment as execute_logical_operator does: advance past
   * leading spaces, then overwrite trailing spaces with NUL, never looking
   * at the first remaining character.
   */
  method TrimFragment(token: string) returns (t: string)
    ensures t == Trim(token, " ")
  {
    var start := 0;
    while start < |token| && token[start] == ' '
      invariant start <= |token|
      invariant TrimLeft(token[start..], " ") == TrimLeft(token, " ")
    {
      assert token[start..][1..] == token[start + 1..];
      start := start + 1;
    }
    var rest := token[start..];
    var end: nat := |rest|;
    assert rest[..|rest|] == rest;
    while end > 1 && rest[end - 1] == ' '
      invariant 0 <= end <= |rest|
      invariant TrimRight(rest[..end], " ") == TrimRight(rest, " ")
    {
      assert rest[..end][..end - 1] == rest[..end - 1];
      end := end - 1;
    }
    assert rest[..|rest|] == rest;
    t := rest[..end];
  }

  /**
   * execute_logical_operator: interactively every fragment runs, left to
   * right with no short-circuit, and 1 is returned; otherwise the first
   * fragment runs and the shell exits with 0 if it succeeded, 2 if not.
   */
  method ExecuteLogicalOperator(command: string, interactive: bool, sys: string -> int)
    returns (ran: seq<string>, outcome: LogicalOutcome)
    ensures interactive ==> ran == Fragments(command) && outcome == ReturnsValue(1)
    ensures !interactive && Fragments(command) == [] ==> ran == [] && outcome == ReturnsValue(1)
    ensures !interactive && Fragments(command) != [] ==>
      ran == Fragments(command)[..1] && outcome == ExitsWith(if sys(ran[0]) == 0 then 0 else 2)
  {
    var delimiter := "&&||";
    var result := 1;
    ran := [];
    ghost var done: seq<string> := [];
    assert command[0..] == command;
    var token, pos := StringTok(command, 0, delimiter);
    ghost var rest := Pending(command, token, pos, delimiter);
    while token.Some?
      invariant pos <= |command|
      invariant rest == Pending(command, token, pos, delimiter)
      invariant Tokens(command, delimiter) == done + rest
      invariant ran == TrimAll(done)
      invariant !interactive ==> done == []
      decreases |command| - pos, token.Some?
    {
      var trimmed := TrimFragment(token.value);
      var status := sys(trimmed);
      TrimAllAppend(done, [token.value]);
      ShiftFirst(done, rest);
      ran := ran + [trimmed];
      done := done + [token.value];
      if !interactive {
        assert Fragments(command)[..1] == ran;
        if status == 0 {
          return ran, ExitsWith(0);
        }
        return ran, ExitsWith(2);
      }
      token, pos := StringTok(command, pos, delimiter);
      rest := rest[1..];
    }
    outcome := ReturnsValue(result);
  }
}
