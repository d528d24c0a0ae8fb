/**
 * main.c: the read-dispatch loop. The lines read_command returns are given
 * as a sequence (its end is read_command's NULL); the prompt, the signal
 * handler and what each handler writes are not part of this module, whose
 * results are which handler each line went to and how the shell ended.
 *
 * Once comments are removed, the `else` before the env test belongs to the
 * NULL test of read_command's result, since the exit test between them is
 * commented out. So the chain starts at the env test, and no line reaches
 * execute_exit. The '&'/'|' branch calls
 * execute_logical_operators, which is bound here to execute_logical_operator
 * of builtin.c.
 */
module Shell {
  import opened Wrappers
  import opened CLib
  import opened Environment
  import opened MEnvironment
  import Builtin
  import Executor

  /** The handler main.c hands a line to. */
  datatype Handler = EnvBuiltin | CdBuiltin | SeparatorBuiltin | LogicalBuiltin | ExternalCommand

  /** The if-chain of main.c, with stringtwocmp and containschars as written. */
  function Classify(line: string): Handler {
    if Compare(line, "env", 3) == 0 then EnvBuiltin
    else if Compare(line, "cd", 2) == 0 then CdBuiltin
    else if ContainsChars(line, ";") then SeparatorBuiltin
    else if ContainsChars(line, "&|") then LogicalBuiltin
    else ExternalCommand
  }

  /** The handlers of a run of lines, in order. */
  function Dispatches(lines: seq<string>): (hs: seq<Handler>)
    ensures |hs| == |lines|
  {
    seq(|lines|, i requires 0 <= i < |lines| => Classify(lines[i]))
  }

  /**
   * The chain in plain terms: an "env" prefix wins over everything, then a
   * "cd" prefix, then any ';', then any '&' or '|'.
   */
  lemma {:induction false} ClassifyMeaning(line: string)
    ensures Classify(line) == EnvBuiltin <==> StartsWith(line, "env")
    ensures Classify(line) == CdBuiltin <==> !StartsWith(line, "env") && StartsWith(line, "cd")
    ensures Classify(line) == SeparatorBuiltin <==>
      !StartsWith(line, "env") && !StartsWith(line, "cd") && ';' in line
    ensures Classify(line) == LogicalBuiltin <==>
      !StartsWith(line, "env") && !StartsWith(line, "cd") && ';' !in line && ('&' in line || '|' in line)
  {
    ComparePrefix(line, "env");
    ComparePrefix(line, "cd");
    assert ContainsChars(line, ";") <==> ';' in line by {
      if ';' in line {
        var i :| 0 <= i < |line| && line[i] == ';';
      }
    }
    assert ContainsChars(line, "&|") <==> '&' in line || '|' in line by {
      if '&' in line {
        var i :| 0 <= i < |line| && line[i] == '&';
      }
      if '|' in line {
        var i :| 0 <= i < |line| && line[i] == '|';
      }
    }
  }

  /**
   * An "exit" line with no separator or operator goes to execute_command,
   * like any other name: the exit built-in is out of the chain.
   */
  lemma {:induction false} ExitIsExternal(rest: string)
    requires ';' !in rest && '&' !in rest && '|' !in rest
    ensures Classify("exit" + rest) == ExternalCommand
  {
    var line := "exit" + rest;
    ClassifyMeaning(line);
    assert line[0] == 'e' && line[1] == 'x';
    assert forall i :: 4 <= i < |line| ==> line[i] == rest[i - 4];
  }

  /**
   * Whether main exits after handing `line` to its handler, and with which
   * status, when `dirs` are the PATH directories: outside interactive mode a
   * logical line with a fragment exits with 0 or 2 by the status of its
   * first fragment, and a command whose name has no '/' and resolves
   * nowhere exits with 127. Nothing else exits.
   */
  function ExitStatus(line: string, interactive: bool, dirs: seq<string>,
                      sys: string -> int, executable: string -> bool): (r: Option<int>)
    ensures r.Some? ==> !interactive && Classify(line) in {LogicalBuiltin, ExternalCommand}
    ensures r.Some? && Classify(line) == LogicalBuiltin ==> r.value == 0 || r.value == 2
    ensures r.Some? && Classify(line) == ExternalCommand ==> r.value == 127
  {
    if interactive then None
    else match Classify(line)
      case LogicalBuiltin =>
        var fragments := Builtin.Fragments(line);
        if fragments == [] then None else Some(if sys(fragments[0]) == 0 then 0 else 2)
      case ExternalCommand =>
        var args := Tokens(line, Executor.ArgumentDelimiters(interactive));
        if args != [] && '/' !in args[0] && Executor.Resolve(dirs, args[0], executable).None? then Some(127)
        else None
      case _ => None
  }

  /**
   * One pass of main's loop body: the line goes to the handler Classify
   * names; `exit` is the status the shell exits with, which only a logical
   * line (0 or 2) or an unresolved command (127) can give, and only outside
   * interactive mode; ExitStatus says exactly when. `now` is the working directory afterwards; only cd
   * changes it or the environment, as execute_cd's run over the line's
   * newline-separated parts.
   */
  method DispatchLine(env: Environ, line: string, interactive: bool, cwd: string,
                      sys: string -> int, executable: string -> bool,
                      chdir: (string, string) -> Option<string>, allocFails: (nat, string) -> bool)
    returns (handler: Handler, exit: Option<int>, now: string)
    modifies env
    ensures handler == Classify(line)
    ensures exit.Some? ==> !interactive && handler in {LogicalBuiltin, ExternalCommand}
    ensures exit.Some? && handler == LogicalBuiltin ==> exit.value == 0 || exit.value == 2
    ensures exit.Some? && handler == ExternalCommand ==> exit.value == 127
    ensures exit == ExitStatus(line, interactive, Executor.PathDirs(old(env.vars)), sys, executable)
    ensures Lookup(env.vars, "PATH") == Lookup(old(env.vars), "PATH")
    ensures handler != CdBuiltin ==> env.vars == old(env.vars) && now == cwd
    ensures handler == CdBuiltin ==>
      var r := Executor.CdRun(Tokens(line, "\n"), 1, old(env.vars), cwd, interactive, chdir, allocFails);
      env.vars == r.vars && now == r.cwd
  {
    handler, exit, now := Classify(line), None, cwd;
    var isEnv := StringTwoCmp(line, "env", 3);
    if isEnv == 0 {
      var written := Builtin.ExecuteEnv(env);
    } else {
      var isCd := StringTwoCmp(line, "cd", 2);
      if isCd == 0 {
        var cdErr, cdOutcome;
        now, cdErr, cdOutcome := Executor.ExecuteCd(env, line, interactive, cwd, chdir, allocFails);
        Executor.CdKeepsPath(Tokens(line, "\n"), 1, old(env.vars), cwd, interactive, chdir, allocFails);
      } else if ContainsChars(line, ";") {
        var ran, statuses := Builtin.ExecuteSeparator(line, sys);
      } else if ContainsChars(line, "&|") {
        var ran, outcome := Builtin.ExecuteLogicalOperator(line, interactive, sys);
        if outcome.ExitsWith? {
          exit := Some(outcome.status);
        }
      } else {
        var prepared, notFound := Executor.PrepareCommand(env, line, interactive, executable);
        if prepared.Exits? {
          exit := Some(prepared.status);
        }
      }
    }
  }

  /**
   * main. With an argument the usage line is written and 1 returned.
   * Otherwise every line is dispatched in order and the shell returns 0 at
   * the end of input, unless, outside interactive mode, a logical line or
   * an unresolved command exits first; `exited` says so and `status` is
   * then the exit status. The run stops at the first line ExitStatus gives
   * a status for, with the PATH directories it started with: execute_cd
   * changes only OLDPWD and PWD. `cwd` is the working directory on entry;
   * `allocFails(i, n, name)` says whether malloc fails in execute_cd's
   * set_environment call for `name` on its line n, for input line i.
   */
  method RunShell(env: Environ, argc: int, argv0: string, lines: seq<string>, interactive: bool, cwd: string,
                  sys: string -> int, executable: string -> bool,
                  chdir: (string, string) -> Option<string>, allocFails: (nat, nat, string) -> bool)
    returns (status: int, handled: seq<Handler>, exited: bool, err: string)
    modifies env
    ensures argc != 1 ==> status == 1 && handled == [] && !exited && err == "Usage: " + argv0 + "\n"
    ensures argc == 1 ==> err == [] && |handled| <= |lines| && handled == Dispatches(lines[..|handled|])
    ensures argc == 1 && !exited ==> handled == Dispatches(lines) && status == 0
    ensures exited ==>
      && !interactive && handled != []
      && (handled[|handled| - 1] == LogicalBuiltin ==> status == 0 || status == 2)
      && (handled[|handled| - 1] == ExternalCommand ==> status == 127)
      && handled[|handled| - 1] in {LogicalBuiltin, ExternalCommand}
    ensures argc == 1 ==>
      var dirs := Executor.PathDirs(old(env.vars));
      && (forall k :: 0 <= k < |handled| - 1 ==> ExitStatus(lines[k], interactive, dirs, sys, executable).None?)
      && (!exited ==> forall k :: 0 <= k < |lines| ==> ExitStatus(lines[k], interactive, dirs, sys, executable).None?)
      && (exited ==> ExitStatus(lines[|handled| - 1], interactive, dirs, sys, executable) == Some(status))
  {
    if argc != 1 {
      return 1, [], false, "Usage: " + argv0 + "\n";
    }
    handled, exited, err := [], false, [];
    var now := cwd;
    ghost var path := Lookup(env.vars, "PATH");
    ghost var dirs := Executor.PathDirs(env.vars);
    var i := 0;
    while i < |lines|
      invariant 0 <= i <= |lines|
      invariant handled == Dispatches(lines[..i])
      invariant Lookup(env.vars, "PATH") == path
      invariant forall k :: 0 <= k < i ==> ExitStatus(lines[k], interactive, dirs, sys, executable).None?
    {
      assert lines[..i + 1] == lines[..i] + [lines[i]];
      assert Executor.PathDirs(env.vars) == dirs;
      var handler, exit;
      var lineAllocFails := (number: nat, name: string) => allocFails(i, number, name);
      handler, exit, now := DispatchLine(env, lines[i], interactive, now, sys, executable, chdir, lineAllocFails);
      assert exit == ExitStatus(lines[i], interactive, dirs, sys, executable);
      handled := handled + [handler];
      if exit.Some? {
        return exit.value, handled, true, err;
      }
      forall k | 0 <= k < i + 1
        ensures ExitStatus(lines[k], interactive, dirs, sys, executable).None?
      {
        if k == i {
          assert exit.None?;
        }
      }
      i := i + 1;
    }
    assert lines[..|lines|] == lines;
    status := 0;
  }
}
