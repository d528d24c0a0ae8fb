/**
 * executor.c: resolving a command name through PATH (get_command_path),
 * the tokenize-and-resolve prelude of execute_command, and the cd built-in
 * (execute_cd). access, chdir and getcwd are oracles: `executable` says
 * whether a path passes access(path, X_OK); `chdir(cwd, path)` gives the
 * new working directory, or None when chdir fails.
 */
module Executor {
  import opened Wrappers
  import opened CLib
  import opened Environment
  import opened MEnvironment
  import opened Knight

  /** ERROR_MESSAGE_SIZE, also the size of execute_cd's buffers. */
  const ErrorMessageSize: nat := 1024

  // ---------------------------------------------------------------------
  // get_command_path

  /**
   * The directories of PATH, split on ':'. An unset PATH is taken to give
   * no directory.
   */
  function PathDirs(vars: seq<string>): seq<string> {
    match Lookup(vars, "PATH")
    case Some(path) => Tokens(path, ":")
    case None => []
  }

  /** The path tried for each directory, in PATH order. */
  function Candidates(dirs: seq<string>, command: string): seq<string> {
    seq(|dirs|, i requires 0 <= i < |dirs| => dirs[i] + "/" + command)
  }

  /** The index of the first candidate that passes the access check. */
  function FirstExecutable(candidates: seq<string>, executable: string -> bool): (r: Option<nat>)
    ensures r.Some? ==> r.value < |candidates| && executable(candidates[r.value])
    ensures r.Some? ==> forall j :: 0 <= j < r.value ==> !executable(candidates[j])
    ensures r.None? ==> forall j :: 0 <= j < |candidates| ==> !executable(candidates[j])
  {
    if candidates == [] then None
    else if executable(candidates[0]) then Some(0)
    else match FirstExecutable(candidates[1..], executable)
      case None => None
      case Some(i) => Some(i + 1)
  }

  lemma FirstExecutableIs(candidates: seq<string>, executable: string -> bool, i: nat)
    requires i < |candidates| && executable(candidates[i])
    requires forall j :: 0 <= j < i ==> !executable(candidates[j])
    ensures FirstExecutable(candidates, executable) == Some(i)
  {
  }

  lemma {:induction false} NoneExecutable(dirs: seq<string>, command: string, executable: string -> bool)
    requires forall j :: 0 <= j < |dirs| ==> !executable(dirs[j] + "/" + command)
    ensures FirstExecutable(Candidates(dirs, command), executable) == None
  {
    var candidates := Candidates(dirs, command);
    assert forall j :: 0 <= j < |candidates| ==> !executable(candidates[j]);
  }

  /** The diagnostic for a name found in no PATH directory, cut to the buffer. */
  function NotFoundMessage(command: string): string {
    Truncate("./hsh: 1: " + command + ": not found\n", ErrorMessageSize)
  }

  /** The path get_command_path settles on, if any. */
  function Resolve(dirs: seq<string>, command: string, executable: string -> bool): Option<string> {
    var candidates := Candidates(dirs, command);
    match FirstExecutable(candidates, executable)
    case Some(i) => Some(candidates[i])
    case None => None
  }

  /**
   * Resolution takes the first PATH directory, in order, whose
   * "dir/command" is executable, and fails only when none is.
   */
  lemma {:induction false} ResolveFindsFirst(dirs: seq<string>, command: string, executable: string -> bool)
    ensures Resolve(dirs, command, executable).None? <==>
      forall j :: 0 <= j < |dirs| ==> !executable(dirs[j] + "/" + command)
    ensures Resolve(dirs, command, executable).Some? ==>
      exists i :: 0 <= i < |dirs| && Resolve(dirs, command, executable).value == dirs[i] + "/" + command
        && executable(dirs[i] + "/" + command)
        && forall j :: 0 <= j < i ==> !executable(dirs[j] + "/" + command)
  {
    var candidates := Candidates(dirs, command);
    match FirstExecutable(candidates, executable)
    case Some(i) =>
      assert candidates[i] == dirs[i] + "/" + command;
      assert forall j :: 0 <= j < i ==> candidates[j] == dirs[j] + "/" + command;
    case None =>
      assert forall j :: 0 <= j < |dirs| ==> candidates[j] == dirs[j] + "/" + command;
  }

  /** The first executable "dir/command" is the one Resolve settles on. */
  lemma {:induction false} ResolveAt(dirs: seq<string>, i: nat, command: string, executable: string -> bool)
    requires i < |dirs| && executable(dirs[i] + "/" + command)
    requires forall j :: 0 <= j < i ==> !executable(dirs[j] + "/" + command)
    ensures Resolve(dirs, command, executable) == Some(dirs[i] + "/" + command)
  {
    var candidates := Candidates(dirs, command);
    assert forall j :: 0 <= j <= i ==> candidates[j] == dirs[j] + "/" + command;
    FirstExecutableIs(candidates, executable, i);
  }

  /** What get_command_path gives back. */
  datatype PathOutcome = Found(path: string) | NotFound | ExitsWith(status: int)

  /**
   * get_command_path: the first "dir/command", over the PATH directories in
   * order, that is executable; when there is none, the diagnostic, and exit
   * status 127 outside interactive mode.
   */
  method GetCommandPath(env: Environ, command: string, interactive: bool, executable: string -> bool)
    returns (outcome: PathOutcome, err: string)
    ensures match Resolve(PathDirs(env.vars), command, executable)
      case Some(p) => outcome == Found(p) && err == []
      case None => err == NotFoundMessage(command) && outcome == (if interactive then NotFound else ExitsWith(127))
  {
    var path := GetEnvironment(env, Some("PATH"));
    var pathEnv := if path.Some? then path.value else "";
    assert PathDirs(env.vars) == Tokens(pathEnv, ":");
    var found := SearchPath(pathEnv, command, executable);
    if found.Some? {
      return Found(found.value), [];
    }
    err := NotFoundMessage(command);
    if !interactive {
      return ExitsWith(127), err;
    }
    outcome := NotFound;
  }

  /** The loop of get_command_path over the ':'-separated directories. */
  method SearchPath(pathEnv: string, command: string, executable: string -> bool) returns (found: Option<string>)
    ensures found == Resolve(Tokens(pathEnv, ":"), command, executable)
  {
    ghost var dirs := Tokens(pathEnv, ":");
    ghost var tried: seq<string> := [];
    assert pathEnv[0..] == pathEnv;
    var token, pos := StringTok(pathEnv, 0, ":");
    ghost var rest := Pending(pathEnv, token, pos, ":");
    while token.Some?
      invariant pos <= |pathEnv|
      invariant rest == Pending(pathEnv, token, pos, ":")
      invariant dirs == tried + rest
      invariant forall j :: 0 <= j < |tried| ==> !executable(tried[j] + "/" + command)
      decreases |pathEnv| - pos, token.Some?
    {
      var fullPath := JoinPath(token.value, command);
      if executable(fullPath) {
        assert dirs[|tried|] == token.value;
        assert forall j :: 0 <= j < |tried| ==> dirs[j] == tried[j];
        ResolveAt(dirs, |tried|, command, executable);
        return Some(fullPath);
      }
      ShiftFirst(tried, rest);
      tried := tried + [token.value];
      token, pos := StringTok(pathEnv, pos, ":");
      rest := rest[1..];
    }
    NoneExecutable(dirs, command, executable);
    found := None;
  }

  /**
   * The full_path buffer of get_command_path: strlen(dir) + strlen(command)
   * + 2 characters, filled by strcpy, strcat "/" and strcat.
   */
  method JoinPath(dir: string, command: string) returns (fullPath: string)
    ensures fullPath == dir + "/" + command
  {
    var buffer := new char[|dir| + |command| + 2];
    var at := CatAt(buffer, 0, dir);
    at := CatAt(buffer, at, "/");
    at := CatAt(buffer, at, command);
    fullPath := buffer[..at];
  }

  // ---------------------------------------------------------------------
  // execute_command, lines 96-136: tokenize and resolve

  /** How far execute_command's prelude gets. */
  datatype Prepared = Ready(argv: seq<string>) | Fails | Exits(status: int)

  /** The delimiters of each mode: " " interactively, " \t\n" otherwise. */
  function ArgumentDelimiters(interactive: bool): string {
    if interactive then " " else " \t\n"
  }

  /**
   * The prelude of execute_command: no token gives -1; a first token
   * without '/' is looked up in PATH and replaced by the path found, and a
   * failed lookup gives -1 (or exit 127 outside interactive mode).
   */
  method PrepareCommand(env: Environ, command: string, interactive: bool, executable: string -> bool)
    returns (outcome: Prepared, err: string)
    ensures var args := Tokens(command, ArgumentDelimiters(interactive));
      && (args == [] ==> outcome == Fails && err == [])
      && (args != [] && '/' in args[0] ==> outcome == Ready(args) && err == [])
      && (args != [] && '/' !in args[0] ==>
            match Resolve(PathDirs(env.vars), args[0], executable)
            case Some(p) => outcome == Ready([p] + args[1..]) && err == []
            case None => err == NotFoundMessage(args[0]) && outcome == (if interactive then Fails else Exits(127)))
  {
    var args := Tokenize(command, ArgumentDelimiters(interactive));
    if args == [] {
      return Fails, [];
    }
    if '/' in args[0] {
      return Ready(args), [];
    }
    var found;
    found, err := GetCommandPath(env, args[0], interactive, executable);
    match found
    case Found(p) => outcome := Ready([p] + args[1..]);
    case NotFound => outcome := Fails;
    case ExitsWith(s) => outcome := Exits(s);
  }

  // ---------------------------------------------------------------------
  // execute_cd

  /** strcondition(command, "cd", " ", 1) == 0: only spaces follow "cd". */
  predicate BareCd(c: string) {
    forall i :: 2 <= i < |c| ==> c[i] == ' '
  }

  /**
   * The directory a "cd" line asks for. `rescan` is present when the path
   * was taken with stringtok(command + 3, " \t"): that call re-seeds the
   * tokenizer inside this line, so what follows the path is all the
   * newline loop sees afterwards.
   */
  datatype CdTarget = Target(path: Option<string>, rescan: Option<string>) | NoArgument

  function TargetOf(c: string, vars: seq<string>): (t: CdTarget)
    requires StartsWith(c, "cd")
    ensures t.Target? && t.rescan.Some? ==>
      |t.rescan.value| + 3 < |c| && t.rescan.value == c[|c| - |t.rescan.value|..]
  {
    if BareCd(c) then Target(Lookup(vars, "HOME"), None)
    else
      assert |c| >= 3;
      var r := StrTok(c, 3, " \t");
      match r.0
      case None => NoArgument
      case Some(p) =>
        var path := if p == "~" then Lookup(vars, "HOME")
                    else if p == "-" then Lookup(vars, "OLDPWD")
                    else Some(p);
        Target(path, Some(c[r.1..]))
  }

  /** "./hsh: <n>: cd: can't cd to <path>\n", a NULL path printing as "(null)". */
  function CdMessage(number: nat, path: Option<string>): string {
    "./hsh: " + DecimalString(number) + ": cd: can't cd to "
      + (if path.Some? then path.value else "(null)") + "\n"
  }

  /** How execute_cd ends. */
  datatype CdOutcome =
    | Finished   // the newline loop ran out of commands
    | Returned   // an early return
    | Undefined  // NULL reaches stringcmp or set_environment

  datatype CdState = CdState(vars: seq<string>, cwd: string, err: string, outcome: CdOutcome)

  /**
   * What one line does: it ends execute_cd with a final state, or lets the
   * newline loop go on from working directory `cwd` (the environment is
   * then unchanged), re-seeded inside the line when `rescan` is present.
   */
  datatype CdStep = Stop(state: CdState) | Continue(cwd: string, rescan: Option<string>)

  /**
   * One pass of the newline loop of execute_cd on line `c`, numbered
   * `number`. A line not starting with "cd" is skipped. getcwd fails on a
   * directory name of 1024 characters or more. A failed chdir writes its
   * message and returns, unless the message does not fit, when the loop
   * goes on. A successful chdir in interactive mode sets OLDPWD; the 0 that
   * set_environment returns is compared with NULL, so that success returns
   * at once, and PWD is set (and the call returns) only after setting
   * OLDPWD failed. `allocFails(number, name)` says whether malloc fails in
   * the set_environment call for `name` on this line.
   */
  function LineStep(c: string, number: nat, vars: seq<string>, cwd: string,
                    interactive: bool, chdir: (string, string) -> Option<string>, allocFails: (nat, string) -> bool): (r: CdStep)
    ensures r.Continue? && r.rescan.Some? ==>
      |r.rescan.value| + 3 < |c| && r.rescan.value == c[|c| - |r.rescan.value|..]
  {
    if !StartsWith(c, "cd") then Continue(cwd, None)
    else match TargetOf(c, vars)
      case NoArgument => Stop(CdState(vars, cwd, "", Undefined))
      case Target(path, rescan) =>
        if |cwd| >= ErrorMessageSize then Stop(CdState(vars, cwd, "", Returned))
        else
          var moved := if path.Some? then chdir(cwd, path.value) else None;
          match moved
          case None =>
            var message := CdMessage(number, path);
            if |message| < ErrorMessageSize then Stop(CdState(vars, cwd, message, Returned))
            else Continue(cwd, rescan)
          case Some(now) =>
            if !interactive then Continue(now, rescan)
            else if !allocFails(number, "OLDPWD") then Stop(CdState(Assigned(vars, "OLDPWD", cwd, true), now, "", Returned))
            else if |now| >= ErrorMessageSize then Stop(CdState(vars, now, "", Undefined))
            else if !allocFails(number, "PWD") then Stop(CdState(Assigned(vars, "PWD", now, true), now, "", Returned))
            else Continue(now, rescan)
  }

  /** Newline-separated commands, as the outer stringtok loop yields them. */
  predicate Lines(cmds: seq<string>) {
    forall k :: 0 <= k < |cmds| ==> IsToken(cmds[k], "\n")
  }

  /** The commands left once a line's target is chosen. */
  function Remaining(cmds: seq<string>, rescan: Option<string>): seq<string>
    requires cmds != []
  {
    if rescan.None? then cmds[1..]
    else if rescan.value == [] then []
    else [rescan.value]
  }

  /**
   * The newline loop of execute_cd from the command numbered `number` on,
   * with environment `vars` and working directory `cwd`.
   */
  function CdRun(cmds: seq<string>, number: nat, vars: seq<string>, cwd: string,
                 interactive: bool, chdir: (string, string) -> Option<string>, allocFails: (nat, string) -> bool): CdState
    requires Lines(cmds)
    decreases TotalLength(cmds)
  {
    if cmds == [] then CdState(vars, cwd, "", Finished)
    else match LineStep(cmds[0], number, vars, cwd, interactive, chdir, allocFails)
      case Stop(state) => state
      case Continue(now, rescan) =>
        var rest := Remaining(cmds, rescan);
        assert Lines(rest) && TotalLength(rest) < TotalLength(cmds) by {
          RemainingShrinks(cmds, rescan);
        }
        CdRun(rest, number + 1, vars, now, interactive, chdir, allocFails)
  }

  lemma {:induction false} RemainingShrinks(cmds: seq<string>, rescan: Option<string>)
    requires cmds != [] && Lines(cmds)
    requires rescan.Some? ==> |rescan.value| + 3 < |cmds[0]| && rescan.value == cmds[0][|cmds[0]| - |rescan.value|..]
    ensures Lines(Remaining(cmds, rescan))
    ensures TotalLength(Remaining(cmds, rescan)) < TotalLength(cmds)
  {
    TotalLengthCons(cmds);
    if rescan.Some? && rescan.value != [] {
      var c, a := cmds[0], rescan.value;
      assert IsToken(c, "\n");
      forall i | 0 <= i < |a| ensures a[i] !in "\n" {
        assert a[i] == c[|c| - |a| + i];
      }
      assert TotalLength([a]) == TotalLength([]) + |a| + 1;
    }
  }

  /** CdRun after a line that lets the loop go on. */
  lemma {:induction false} CdRunContinues(cmds: seq<string>, number: nat, vars: seq<string>, cwd: string,
                       interactive: bool, chdir: (string, string) -> Option<string>, allocFails: (nat, string) -> bool,
                       now: string, rescan: Option<string>)
    requires cmds != [] && Lines(cmds)
    requires LineStep(cmds[0], number, vars, cwd, interactive, chdir, allocFails) == Continue(now, rescan)
    ensures Lines(Remaining(cmds, rescan)) && TotalLength(Remaining(cmds, rescan)) < TotalLength(cmds)
    ensures CdRun(cmds, number, vars, cwd, interactive, chdir, allocFails)
      == CdRun(Remaining(cmds, rescan), number + 1, vars, now, interactive, chdir, allocFails)
  {
    RemainingShrinks(cmds, rescan);
  }

  /** A line that ends the loop gives the loop's result. */
  lemma {:induction false} CdRunStops(cmds: seq<string>, number: nat, vars: seq<string>, cwd: string,
                   interactive: bool, chdir: (string, string) -> Option<string>, allocFails: (nat, string) -> bool,
                   state: CdState)
    requires cmds != [] && Lines(cmds)
    requires LineStep(cmds[0], number, vars, cwd, interactive, chdir, allocFails) == Stop(state)
    ensures CdRun(cmds, number, vars, cwd, interactive, chdir, allocFails) == state
  {
  }

  /** The lines the outer loop sees after a rescan are the rest of the line. */
  lemma {:induction false} RescanTokens(c: string, a: string)
    requires IsToken(c, "\n") && |a| <= |c| && a == c[|c| - |a|..]
    ensures Tokens(a, "\n") == if a == [] then [] else [a]
  {
    forall i | 0 <= i < |a| ensures a[i] !in "\n" {
      assert a[i] == c[|c| - |a| + i];
    }
    TokensOfToken(a, "\n");
  }

  /**
   * The body of execute_cd's newline loop for line `c`: the state it ends
   * with, or the working directory it goes on from and where the loop is
   * re-seeded.
   */
  method CdLine(env: Environ, c: string, number: nat, cwd: string, interactive: bool,
                chdir: (string, string) -> Option<string>, allocFails: (nat, string) -> bool) returns (step: CdStep)
    modifies env
    ensures step == LineStep(c, number, old(env.vars), cwd, interactive, chdir, allocFails)
    ensures env.vars == if step.Stop? then step.state.vars else old(env.vars)
  {
    if !StartsWith(c, "cd") {
      return Continue(cwd, None);
    }
    var path: Option<string>;
    var rescan: Option<string> := None;
    if BareCd(c) {
      path := GetEnvironment(env, Some("HOME"));
    } else {
      var p, q := StringTok(c, 3, " \t");
      if p.None? {
        return Stop(CdState(env.vars, cwd, "", Undefined));
      }
      if p.value == "~" {
        path := GetEnvironment(env, Some("HOME"));
      } else if p.value == "-" {
        path := GetEnvironment(env, Some("OLDPWD"));
      } else {
        path := p;
      }
      rescan := Some(c[q..]);
    }
    assert TargetOf(c, env.vars) == Target(path, rescan);
    if |cwd| >= ErrorMessageSize {
      return Stop(CdState(env.vars, cwd, "", Returned));
    }
    var moved := if path.Some? then chdir(cwd, path.value) else None;
    if moved.None? {
      var message := CdMessage(number, path);
      if |message| < ErrorMessageSize {
        return Stop(CdState(env.vars, cwd, message, Returned));
      }
      return Continue(cwd, rescan);
    }
    var now := moved.value;
    if !interactive {
      return Continue(now, rescan);
    }
    var r, written := env.SetEnvironment("OLDPWD", cwd, 1, 0, allocFails(number, "OLDPWD"));
    if r == 0 {
      return Stop(CdState(env.vars, now, "", Returned));
    }
    if |now| >= ErrorMessageSize {
      return Stop(CdState(env.vars, now, "", Undefined));
    }
    r, written := env.SetEnvironment("PWD", now, 1, 0, allocFails(number, "PWD"));
    if r == 0 {
      return Stop(CdState(env.vars, now, "", Returned));
    }
    step := Continue(now, rescan);
  }

  /**
   * execute_cd: the final environment, working directory, diagnostic and
   * way of ending are those CdRun gives for the lines of `input`; `cwd` is
   * the working directory on entry.
   */
  method ExecuteCd(env: Environ, input: string, interactive: bool, cwd: string,
                   chdir: (string, string) -> Option<string>, allocFails: (nat, string) -> bool)
    returns (now: string, err: string, outcome: CdOutcome)
    modifies env
    ensures CdState(env.vars, now, err, outcome)
      == CdRun(Tokens(input, "\n"), 1, old(env.vars), cwd, interactive, chdir, allocFails)
  {
    ghost var goal := CdRun(Tokens(input, "\n"), 1, env.vars, cwd, interactive, chdir, allocFails);
    var buf: string, pos: nat := input, 0;
    assert buf[pos..] == input;
    var command;
    StrTokTokens(buf, pos, "\n");
    command, pos := StringTok(buf, pos, "\n");
    var number: nat := 1;
    now := cwd;
    while command.Some?
      invariant pos <= |buf|
      invariant command.Some? ==> Lines([command.value] + Tokens(buf[pos..], "\n"))
      invariant command.Some? ==> goal == CdRun([command.value] + Tokens(buf[pos..], "\n"), number, env.vars, now, interactive, chdir, allocFails)
      invariant command.None? ==> goal == CdState(env.vars, now, "", Finished)
      decreases if command.Some? then TotalLength([command.value] + Tokens(buf[pos..], "\n")) else 0
    {
      var c := command.value;
      ghost var cmds := [c] + Tokens(buf[pos..], "\n");
      assert cmds[0] == c && cmds[1..] == Tokens(buf[pos..], "\n");
      ghost var before := env.vars;
      var step := CdLine(env, c, number, now, interactive, chdir, allocFails);
      if step.Stop? {
        CdRunStops(cmds, number, before, now, interactive, chdir, allocFails, step.state);
        return step.state.cwd, step.state.err, step.state.outcome;
      }
      CdRunContinues(cmds, number, env.vars, now, interactive, chdir, allocFails, step.cwd, step.rescan);
      if step.rescan.Some? {
        RescanTokens(c, step.rescan.value);
        buf, pos := step.rescan.value, 0;
        assert buf[pos..] == buf;
      }
      assert Remaining(cmds, step.rescan) == Tokens(buf[pos..], "\n");
      now := step.cwd;
      StrTokTokens(buf, pos, "\n");
      command, pos := StringTok(buf, pos, "\n");
      number := number + 1;
    }
    err, outcome := "", Finished;
  }

  // ---------------------------------------------------------------------
  // Properties of execute_cd

  /** A word with no blank, tab or newline. */
  predicate Word(p: string) {
    p != [] && forall i :: 0 <= i < |p| ==> p[i] !in " \t\n"
  }

  /** "cd" followed by spaces only goes to HOME and keeps the line loop. */
  lemma {:induction false} CdBareTarget(spaces: string, vars: seq<string>)
    requires forall i :: 0 <= i < |spaces| ==> spaces[i] == ' '
    ensures StartsWith("cd" + spaces, "cd")
    ensures TargetOf("cd" + spaces, vars) == Target(Lookup(vars, "HOME"), None)
  {
    var c := "cd" + spaces;
    assert forall i :: 2 <= i < |c| ==> c[i] == spaces[i - 2];
  }

  /**
   * "cd ~" goes to HOME, "cd -" to OLDPWD and "cd p" to p; the path ends
   * the line, so the tokenizer is left at its end.
   */
  lemma {:induction false} CdWordTarget(p: string, vars: seq<string>)
    requires Word(p)
    ensures StartsWith("cd " + p, "cd")
    ensures TargetOf("cd " + p, vars) ==
      Target(if p == "~" then Lookup(vars, "HOME") else if p == "-" then Lookup(vars, "OLDPWD") else Some(p), Some([]))
  {
    var c := "cd " + p;
    assert c[3] == p[0] && !BareCd(c);
    assert c[3..] == p;
    assert RunLength(c[3..], " \t") == |p|;
    assert c[3..3 + |p|] == p;
    assert StrTok(c, 3, " \t") == (Some(p), |c|);
  }

  /** stringtok(command + 3, " \t") on "cd " + blanks + word + delimiter + rest. */
  lemma {:induction false} CdWordToken(pre: string, p: string, d: char, rest: string)
    requires forall i :: 0 <= i < |pre| ==> pre[i] in " \t"
    requires Word(p) && d in " \t"
    ensures var c := "cd " + pre + p + [d] + rest;
      && StartsWith(c, "cd") && !BareCd(c)
      && StrTok(c, 3, " \t") == (Some(p), |c| - |rest|)
      && c[|c| - |rest|..] == rest
  {
    var c := "cd " + pre + p + [d] + rest;
    var start := 3 + |pre|;
    assert c[..2] == "cd";
    assert c[3..start] == pre && c[start..start + |p|] == p;
    assert c[start] == p[0];
    SkipDelimsIs(c, 3, " \t", start);
    RunLengthIs(c[start..], " \t", |p|);
    assert c[start..][..|p|] == p;
    assert c[start + |p| + 1..] == rest;
  }

  /**
   * The path is the first space- or tab-separated word after "cd ", however
   * much of the line follows it: the tokenizer is left just past the
   * delimiter that ended the word, on the rest of the line.
   */
  lemma {:induction false} CdWordThenRest(pre: string, p: string, d: char, rest: string, vars: seq<string>)
    requires forall i :: 0 <= i < |pre| ==> pre[i] in " \t"
    requires Word(p) && d in " \t"
    ensures StartsWith("cd " + pre + p + [d] + rest, "cd")
    ensures TargetOf("cd " + pre + p + [d] + rest, vars) ==
      Target(if p == "~" then Lookup(vars, "HOME") else if p == "-" then Lookup(vars, "OLDPWD") else Some(p), Some(rest))
  {
    CdWordToken(pre, p, d, rest);
  }

  lemma {:induction false} CdNonInteractiveKeepsEnv(cmds: seq<string>, number: nat, vars: seq<string>, cwd: string,
                                                     chdir: (string, string) -> Option<string>, allocFails: (nat, string) -> bool)
    requires Lines(cmds)
    ensures CdRun(cmds, number, vars, cwd, false, chdir, allocFails).vars == vars
    decreases TotalLength(cmds)
  {
    if cmds != [] {
      match LineStep(cmds[0], number, vars, cwd, false, chdir, allocFails)
      case Stop(_) =>
      case Continue(now, rescan) =>
        CdRunContinues(cmds, number, vars, cwd, false, chdir, allocFails, now, rescan);
        CdNonInteractiveKeepsEnv(Remaining(cmds, rescan), number + 1, vars, now, chdir, allocFails);
    }
  }

  /**
   * What one line can do to the environment: nothing, set OLDPWD to the old
   * directory when that allocation succeeds, or, when it fails and the
   * PWD allocation succeeds, set PWD to the new directory.
   */
  lemma {:induction false} LineStepEffect(c: string, number: nat, vars: seq<string>, cwd: string,
                                           interactive: bool, chdir: (string, string) -> Option<string>,
                                           allocFails: (nat, string) -> bool)
    ensures var r := LineStep(c, number, vars, cwd, interactive, chdir, allocFails);
      r.Stop? ==>
        || r.state.vars == vars
        || (r.state.vars == Assigned(vars, "OLDPWD", cwd, true) && !allocFails(number, "OLDPWD"))
        || (r.state.vars == Assigned(vars, "PWD", r.state.cwd, true)
            && allocFails(number, "OLDPWD") && !allocFails(number, "PWD"))
  {
    if StartsWith(c, "cd") {
      match TargetOf(c, vars)
      case NoArgument =>
      case Target(path, rescan) =>
    }
  }

  /** A name that holds no '=' never starts with another name and '='. */
  lemma {:induction false} NoEqualsNoDefinedPrefix(name: string, other: string)
    requires '=' !in name
    ensures !StartsWith(name, other + "=")
  {
    if |other| < |name| {
      assert name[..|other| + 1][|other|] == name[|other|] != '=';
      assert (other + "=")[|other|] == '=';
    }
  }

    /** A line that ends the loop leaves every name but OLDPWD and PWD alone. */
  lemma {:induction false} StopLeavesOtherNames(c: string, number: nat, vars: seq<string>, cwd: string,
                                                interactive: bool, chdir: (string, string) -> Option<string>,
                                                allocFails: (nat, string) -> bool, other: string)
    requires other != "OLDPWD" && !StartsWith(other, "OLDPWD=")
    requires other != "PWD" && !StartsWith(other, "PWD=")
    requires LineStep(c, number, vars, cwd, interactive, chdir, allocFails).Stop?
    ensures Lookup(LineStep(c, number, vars, cwd, interactive, chdir, allocFails).state.vars, other) == Lookup(vars, other)
  {
    var state := LineStep(c, number, vars, cwd, interactive, chdir, allocFails).state;
    LineStepEffect(c, number, vars, cwd, interactive, chdir, allocFails);
    if state.vars == Assigned(vars, "OLDPWD", cwd, true) {
      NoEqualsNoDefinedPrefix("OLDPWD", other);
      SetLeavesOtherNames(vars, "OLDPWD", cwd, true, other);
    } else if state.vars == Assigned(vars, "PWD", state.cwd, true) {
      NoEqualsNoDefinedPrefix("PWD", other);
      SetLeavesOtherNames(vars, "PWD", state.cwd, true, other);
    }
  }

/**
   * OLDPWD and PWD are the only variables execute_cd can change: the lookup
   * of any other name (one that is neither of them nor starts with either
   * followed by '=') is left as it was.
   */
  lemma {:induction false} CdLeavesOtherNames(cmds: seq<string>, number: nat, vars: seq<string>, cwd: string,
                                               interactive: bool, chdir: (string, string) -> Option<string>,
                                               allocFails: (nat, string) -> bool, other: string)
    requires Lines(cmds)
    requires other != "OLDPWD" && !StartsWith(other, "OLDPWD=")
    requires other != "PWD" && !StartsWith(other, "PWD=")
    ensures Lookup(CdRun(cmds, number, vars, cwd, interactive, chdir, allocFails).vars, other) == Lookup(vars, other)
    decreases TotalLength(cmds)
  {
    if cmds != [] {
      match LineStep(cmds[0], number, vars, cwd, interactive, chdir, allocFails)
      case Stop(state) =>
        CdRunStops(cmds, number, vars, cwd, interactive, chdir, allocFails, state);
        StopLeavesOtherNames(cmds[0], number, vars, cwd, interactive, chdir, allocFails, other);
      case Continue(now, rescan) =>
        CdRunContinues(cmds, number, vars, cwd, interactive, chdir, allocFails, now, rescan);
        CdLeavesOtherNames(Remaining(cmds, rescan), number + 1, vars, now, interactive, chdir, allocFails, other);
    }
  }

    /** PATH in particular survives execute_cd, so command lookup after it is unchanged. */
  lemma {:induction false} CdKeepsPath(cmds: seq<string>, number: nat, vars: seq<string>, cwd: string,
                                       interactive: bool, chdir: (string, string) -> Option<string>,
                                       allocFails: (nat, string) -> bool)
    requires Lines(cmds)
    ensures Lookup(CdRun(cmds, number, vars, cwd, interactive, chdir, allocFails).vars, "PATH") == Lookup(vars, "PATH")
  {
    assert "PATH"[0] != "OLDPWD"[0] && "PATH"[1] != "PWD"[1];
    CdLeavesOtherNames(cmds, number, vars, cwd, interactive, chdir, allocFails, "PATH");
  }

  /** A line that ends the loop after a successful OLDPWD allocation leaves PWD alone. */
  lemma {:induction false} StopKeepsPwd(c: string, number: nat, vars: seq<string>, cwd: string,
                                        interactive: bool, chdir: (string, string) -> Option<string>,
                                        allocFails: (nat, string) -> bool)
    requires !allocFails(number, "OLDPWD")
    requires LineStep(c, number, vars, cwd, interactive, chdir, allocFails).Stop?
    ensures Lookup(LineStep(c, number, vars, cwd, interactive, chdir, allocFails).state.vars, "PWD") == Lookup(vars, "PWD")
  {
    LineStepEffect(c, number, vars, cwd, interactive, chdir, allocFails);
    NoEqualsNoDefinedPrefix("OLDPWD", "PWD");
    SetLeavesOtherNames(vars, "OLDPWD", cwd, true, "PWD");
  }

/**
   * PWD changes only through a line whose OLDPWD allocation failed: when
   * every OLDPWD allocation succeeds, PWD is never updated.
   */
  lemma {:induction false} CdNeverSetsPwd(cmds: seq<string>, number: nat, vars: seq<string>, cwd: string,
                       interactive: bool, chdir: (string, string) -> Option<string>, allocFails: (nat, string) -> bool)
    requires Lines(cmds)
    requires forall k: nat :: !allocFails(k, "OLDPWD")
    ensures Lookup(CdRun(cmds, number, vars, cwd, interactive, chdir, allocFails).vars, "PWD") == Lookup(vars, "PWD")
    decreases TotalLength(cmds)
  {
    if cmds != [] {
      match LineStep(cmds[0], number, vars, cwd, interactive, chdir, allocFails)
      case Stop(state) =>
        CdRunStops(cmds, number, vars, cwd, interactive, chdir, allocFails, state);
        StopKeepsPwd(cmds[0], number, vars, cwd, interactive, chdir, allocFails);
      case Continue(now, rescan) =>
        CdRunContinues(cmds, number, vars, cwd, interactive, chdir, allocFails, now, rescan);
        CdNeverSetsPwd(Remaining(cmds, rescan), number + 1, vars, now, interactive, chdir, allocFails);
    }
  }

  /**
   * Once a line "cd p" names its path, the lines after it are never looked
   * at: the tokenizer was re-seeded inside that line.
   */
  lemma {:induction false} CdAbandonsLaterLines(p: string, rest: seq<string>, number: nat, vars: seq<string>, cwd: string,
                             interactive: bool, chdir: (string, string) -> Option<string>, allocFails: (nat, string) -> bool)
    requires Word(p) && Lines(rest)
    ensures Lines(["cd " + p] + rest) && Lines(["cd " + p])
    ensures CdRun(["cd " + p] + rest, number, vars, cwd, interactive, chdir, allocFails)
      == CdRun(["cd " + p], number, vars, cwd, interactive, chdir, allocFails)
  {
    var c := "cd " + p;
    assert IsToken(c, "\n") by {
      assert forall i :: 3 <= i < |c| ==> c[i] == p[i - 3];
    }
    assert Lines([c] + rest) by {
      forall k | 0 <= k < |[c] + rest| ensures IsToken(([c] + rest)[k], "\n") {
        if k > 0 { assert ([c] + rest)[k] == rest[k - 1]; }
      }
    }
    CdWordTarget(p, vars);
    match LineStep(c, number, vars, cwd, interactive, chdir, allocFails)
    case Stop(_) =>
    case Continue(now, rescan) =>
      CdRunContinues([c] + rest, number, vars, cwd, interactive, chdir, allocFails, now, rescan);
      CdRunContinues([c], number, vars, cwd, interactive, chdir, allocFails, now, rescan);
  }

  /**
   * A chdir that succeeds. In interactive mode: when the OLDPWD allocation
   * succeeds, OLDPWD becomes the old directory and execute_cd returns; when
   * it fails and the PWD allocation succeeds, PWD becomes the new directory
   * and execute_cd returns; when both fail, the loop runs out of lines.
   * When OLDPWD fails and the new directory name is too long for getcwd,
   * set_environment is handed NULL.
   * Outside interactive mode the loop runs out of lines with the
   * environment untouched.
   */
  lemma {:induction false} CdSucceeds(p: string, rest: seq<string>, number: nat, vars: seq<string>, cwd: string, now: string,
                   interactive: bool, chdir: (string, string) -> Option<string>, allocFails: (nat, string) -> bool)
    requires Word(p) && p != "~" && p != "-" && Lines(rest)
    requires |cwd| < ErrorMessageSize && chdir(cwd, p) == Some(now)
    ensures Lines(["cd " + p] + rest)
    ensures var r := CdRun(["cd " + p] + rest, number, vars, cwd, interactive, chdir, allocFails);
      && (interactive && !allocFails(number, "OLDPWD") ==>
            r == CdState(Assigned(vars, "OLDPWD", cwd, true), now, "", Returned)
            && Lookup(r.vars, "OLDPWD") == Some(cwd))
      && (interactive && allocFails(number, "OLDPWD") && |now| < ErrorMessageSize && !allocFails(number, "PWD") ==>
            r == CdState(Assigned(vars, "PWD", now, true), now, "", Returned)
            && Lookup(r.vars, "PWD") == Some(now))
      && (interactive && allocFails(number, "OLDPWD") && |now| < ErrorMessageSize && allocFails(number, "PWD") ==>
            r == CdState(vars, now, "", Finished))
      && (interactive && allocFails(number, "OLDPWD") && |now| >= ErrorMessageSize ==>
            r == CdState(vars, now, "", Undefined))
      && (!interactive ==> r == CdState(vars, now, "", Finished))
  {
    CdAbandonsLaterLines(p, rest, number, vars, cwd, interactive, chdir, allocFails);
    CdWordTarget(p, vars);
    var c := "cd " + p;
    assert [c][0] == c;
    SetThenGet(vars, "OLDPWD", cwd);
    SetThenGet(vars, "PWD", now);
    var step := LineStep(c, number, vars, cwd, interactive, chdir, allocFails);
    if step.Continue? {
      assert step == Continue(now, Some([]));
      CdRunContinues([c], number, vars, cwd, interactive, chdir, allocFails, now, Some([]));
    }
  }

  /** A chdir that fails: the numbered message, and execute_cd returns. */
  lemma {:induction false} CdFails(p: string, rest: seq<string>, number: nat, vars: seq<string>, cwd: string,
                interactive: bool, chdir: (string, string) -> Option<string>, allocFails: (nat, string) -> bool)
    requires Word(p) && p != "~" && p != "-" && Lines(rest)
    requires |cwd| < ErrorMessageSize && chdir(cwd, p).None?
    requires |CdMessage(number, Some(p))| < ErrorMessageSize
    ensures Lines(["cd " + p] + rest)
    ensures CdRun(["cd " + p] + rest, number, vars, cwd, interactive, chdir, allocFails)
      == CdState(vars, cwd, CdMessage(number, Some(p)), Returned)
  {
    CdAbandonsLaterLines(p, rest, number, vars, cwd, interactive, chdir, allocFails);
    CdWordTarget(p, vars);
    assert ["cd " + p][0] == "cd " + p;
  }
}
