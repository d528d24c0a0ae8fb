# simple_shell core in Dafny

A model of the decision logic of osunx/simple_shell, a small Unix command
interpreter written in C:

- the environment store over the global `environ` array (`create_environment`,
  `set_environment`, `remove_environment`, `print_environment`,
  `get_environment`, `stringtwocmp`, the parsing of `process_env_command`);
- the tokenizer and string helpers (`tokenize`, `stringarraycpy`,
  `isOnlyWhitespace`);
- the built-ins `exit`, `env`, `;` and `&&`/`||`;
- `PATH` resolution, the tokenize-and-resolve prelude of `execute_command`,
  and the `cd` built-in;
- the dispatch chain and argument check of `main`.

Files, one module each:

| file | module | models |
|---|---|---|
| wrappers.dfy | Wrappers | `Option` |
| clib.dfy | CLib | the string helpers whose bodies are not part of this model (`stringtok`, `startwith`, `containschars`, `is_integer`, `atoi`, `strcondition`), character access of C strings, token and trim specifications |
| environment.dfy | Environment | environment.c; `environ` is the field `vars` of the class `Environ` |
| menvironment.dfy | MEnvironment | menvironment.c |
| knight.dfy | Knight | knight.c |
| builtin.dfy | Builtin | builtin.c |
| executor.dfy | Executor | executor.c (`get_command_path`, lines 96-136 of `execute_command`, `execute_cd`) |
| shell.dfy | Shell | main.c |

Conventions:

- A C string is a `string` without its terminating NUL. `CharAt` reads `'\0'` past the end.
- A NULL-terminated array is a `seq` whose terminator is implicit. The exception is `create_environment`, which returns an `array<Option<string>>` with `None` as terminator.
- NULL is `None`.
- What an operation writes to standard output or standard error is returned as a string.
- Operating-system calls are parameters:
  - `access(p, X_OK) == 0` is `executable(p)`;
  - `system` and `get_system` are `sys(command)`, the status;
  - `chdir` is `chdir(cwd, path)`, the new directory or `None`;
  - `getcwd` fails on a directory name of 1024 characters or more;
  - interactive mode is a flag;
  - a failing `malloc` in `set_environment` is the flag `outOfMemory` of that call. In `execute_cd` it is `allocFails(n, name)`: whether the call setting `name` on line `n` fails. `RunShell` takes `allocFails(i, n, name)` for input line `i`.
- `stringtok` behaves as `strtok` and shares its hidden position. `StrTok` gives one call: the token and the new saved position. `Tokens` gives all the tokens successive calls return.
- The helpers whose bodies are not part of this model are read as follows:
  - `is_integer`: an optional sign followed by at least one digit;
  - `strcondition(c, "cd", " ", 1) == 0`: only spaces follow `cd`;
  - `strexit(s, "/") == 0`: `s` holds no `/`;
  - `containschars(s, set)`: some character of `set` occurs in `s`.

Behaviour the code has and the model proves:

- **`set_environment`:**
  - A matching entry must start with `name=`, so `PATHX=…` never matches `PATH`.
  - An absent name is appended whatever `overwrite` is.
  - After a successful `set_environment(n, v, 1, _)`, `get_environment(n)` gives `v`.
- **`remove_environment`:** it drops every entry whose name (the text before `=`) equals the same number of leading characters of the argument. So `P=1` is removed by `remove_environment("PATH")`. Entries without `=` are dropped. When nothing survives, the code stores through NULL.
- **Tokenizing and joining:** for `s` holding a non-space character, `stringarraycpy(tokenize(s, " "))` is `s` with leading and trailing spaces removed and inner runs of spaces collapsed to one. For `s` empty or made only of spaces, `tokenize` gives an empty array and `stringarraycpy` writes the terminator into a 0-byte block. Re-splitting the joined tokens gives back the tokens.
- **`execute_logical_operator`:**
  - It splits on every `&` and `|` character, so its `&&`/`||` branches are unreachable.
  - Interactively it runs every fragment with no short-circuit and returns 1.
  - Otherwise it exits after the first fragment: with 0 if that fragment succeeded, with 2 if not.
- **`execute_cd`:**
  - It compares the 0 that `set_environment` returns on success with NULL. A successful `cd` in interactive mode therefore sets OLDPWD and returns at once. PWD is set only when the OLDPWD allocation failed and the PWD one succeeded (`CdNeverSetsPwd`, `CdSucceeds`).
  - `stringtok(command + 3, " \t")` re-seeds the tokenizer inside the current line. For a `cd` with an argument, the text after the path becomes the next and last command, and the later lines of the input are never looked at (`CdAbandonsLaterLines`).
- **`main`:**
  - Once comments are removed, the `else` at main.c:77 belongs to the NULL test at main.c:64-66. The `exit` test at main.c:75-77 is commented out. So after the NULL test the chain starts at the `env` test, and an `exit` line goes to `execute_command` like any other name (`Shell.ExitIsExternal`).
  - The `&`/`|` branch calls `execute_logical_operators`, a name defined in none of these files. The model binds it to `execute_logical_operator` of builtin.c.

## Model

| member | source | states |
|---|---|---|
| Environment.FindIndex | environment.c:77-99 | the index found is the first entry starting with `name=`; none found means no entry does |
| Environment.DefinesIsPrefix | environment.c:78 | the strncmp-then-`'='` test holds exactly when the entry starts with `name + "="` |
| Environment.LongerNameNeverMatches | environment.c:78 | an entry whose name extends `name` by a character other than `=` never matches `name` |
| Environment.Assigned | environment.c:77-132 | definition of the store after `set_environment`; AssignedOverwrites, AssignedAppends and MEnvironment.SetThenGet state its meaning |
| Environment.AssignedOverwrites | environment.c:79-97 | for an existing name: with overwrite, only that index changes, to `name=value`, and the length is kept; without overwrite, nothing changes |
| Environment.AssignedAppends | environment.c:101-132 | for an absent name, `name=value` is appended after the unchanged entries, whatever overwrite is |
| Environment.Environ.SetEnvironment | environment.c:63-140 | returns -1 exactly when allocation fails on a path that allocates, leaving `environ` unchanged; otherwise returns 0 and `environ` becomes the find/overwrite/append result; prints the environment only when `mode` is set and an entry was written |
| Environment.Environ.CreateEnvironment | environment.c:9-49 | a fresh array one longer than `environ`, entry i equal to `environ[i]`, with the terminator last |
| Environment.Kept | environment.c:163-170 | definition of the name test of `remove_environment`; DroppedIffNameIsPrefix and EntriesWithoutEqualsDropped state its meaning |
| Environment.Removed | environment.c:161-183 | definition of the surviving entries; RemovedMembers and RemovedAppend state its meaning |
| Environment.RemovedMembers | environment.c:161-183 | an entry survives `remove_environment` exactly when it was there and is kept by the name test |
| Environment.RemovedAppend | environment.c:161-183 | filtering keeps order: removing from a concatenation removes from each part |
| Environment.DroppedIffNameIsPrefix | environment.c:163-170 | an entry is dropped exactly when its name is no longer than the argument and equals that many leading characters of it |
| Environment.EntriesWithoutEqualsDropped | environment.c:163-164 | an entry with no `=` is never copied |
| Environment.Environ.RemoveEnvironment | environment.c:150-197 | `environ` becomes the filtered entries in order; when none survives the call is reported as faulting (the store through NULL) and `environ` is left alone |
| Environment.EnvText | environment.c:224-232 | the text is empty or ends in a newline |
| Environment.EnvTextLength | environment.c:210-217 | the text is as long as the sum of (entry length + 1) |
| Environment.EnvTextLines | environment.c:224-232 | splitting the text on newlines gives back the entries, for non-empty entries holding no newline |
| Environment.Environ.BuildEnvText | environment.c:210-232 | the buffer filled through the advancing position holds every entry followed by a newline, in order |
| Environment.Environ.PrintEnvironment | environment.c:204-250 | `print`/`write` write the text and return NULL; `none`/`return` return it; any other mode writes `Invalid mode: <mode>` and returns NULL |
| MEnvironment.CompareFrom | menvironment.c:51-66 | 0 exactly when the strings agree up to n or up to a shared end; otherwise the code difference at the first differing position |
| MEnvironment.StringTwoCmp | menvironment.c:51-66 | the loop gives the bounded comparison, with 0 exactly when no compared position differs |
| MEnvironment.CompareZeroLength | menvironment.c:54 | n == 0 compares nothing and gives 0 |
| MEnvironment.ComparePrefix | menvironment.c:54-65 | for a pattern without NUL, comparing its length gives 0 exactly when the string starts with it |
| MEnvironment.MatchIsDefines | menvironment.c:25 | get_environment's match test is set_environment's |
| MEnvironment.Lookup | menvironment.c:21-37 | none exactly when no entry starts with `name=`; otherwise the text after `=` of the first entry that does |
| MEnvironment.GetEnvironment | menvironment.c:9-38 | NULL for a NULL name; otherwise the lookup |
| MEnvironment.SetThenGet | environment.c:77-132 | after setting with overwrite, looking the name up gives the value |
| MEnvironment.SetWithoutOverwriteKeeps | environment.c:95-96 | setting an existing name without overwrite leaves its value |
| MEnvironment.SetLeavesOtherNames | environment.c:77-132 | setting a name leaves every other name as it was, unless one of the two is the other followed by `=` and more |
| MEnvironment.RemoveThenGet | environment.c:161-196 | after removing a name, looking it up gives NULL |
| MEnvironment.ProcessEnvCommand | menvironment.c:104-139 | `setenv` needs a name and a value token and `unsetenv` a name token, else `Invalid command format`; `unsetenv` of a name with `=` gives `Invalid environment`; any other line gives `Unknown command`; a bare `setenv` or `unsetenv` reads past the end |
| CLib.StrTokTokens | knight.c:95-114 | one tokenizer call returns NULL exactly when no token is left; otherwise it returns the first maximal run of non-delimiters, and the tokens after the new saved position are the rest |
| CLib.StringTok | knight.c:95-114 | the skip and run loops compute that call; the token returned and the tokens still to come are the tokens of the text from the saved position |
| Knight.IsOnlyWhitespace | knight.c:10-27 | 1 exactly for a non-NULL string holding no whitespace, 0 otherwise (as written) |
| Knight.IsOnlyWhitespaceIntended | knight.c:4-9 | 1 exactly for a non-NULL string made only of whitespace |
| Knight.WhitespaceTestInverted | knight.c:17-26 | on a non-empty string the code's test and the documented one never agree on 1; `" "` and `"a"` show both directions |
| Knight.Tokenize | knight.c:82-131 | the tokens are the maximal runs of non-delimiters, in order, with no empty token |
| Knight.TokenizeDelimitersOnly | knight.c:117-130 | empty or all-delimiter input gives no token |
| Knight.JoinSpace | knight.c:63-68 | the joined text of a non-empty array is one shorter than the total length plus count, and so fits the buffer |
| Knight.FillJoined | knight.c:60-68 | the copying loop fills the buffer, sized total length plus count, with the strings joined by single spaces and leaves room for the terminator |
| Knight.StringArrayCpy | knight.c:37-71 | NULL gives NULL; an empty array writes into a 0-byte block; otherwise the entries joined by single spaces |
| Knight.SplitJoin | knight.c:37-131 | splitting the joined tokens on spaces gives back the tokens |
| Knight.SqueezeShape | knight.c:63-68 | the collapsed text has no leading, trailing or doubled space |
| Knight.SqueezeKeepsText | knight.c:63-68 | collapsing keeps every non-space character, in order |
| Knight.JoinTokensSqueezes | knight.c:37-131 | joining the space tokens of `s` is `s` with outer spaces removed and inner runs collapsed |
| Knight.SqueezeKeepsTokens | knight.c:37-131 | the collapsed text splits on spaces into the same tokens as `s` |
| Builtin.ExitDecision | builtin.c:29-57 | it returns without exiting exactly for `exit ` plus a non-integer; every exit status is at least 0; any diagnostic goes with status 2; a line that is neither `exit` nor starts with `exit ` writes `Invalid command: <line>` and exits with 2 |
| Builtin.TrimBlanks | builtin.c:16-27 | the two loops strip leading and trailing spaces and tabs |
| Builtin.ExecuteExit | builtin.c:11-58 | the decision is taken on the trimmed line |
| Builtin.ExitBare | builtin.c:30-32 | `exit`, however padded, exits with 0 |
| Builtin.ExitInvalid | builtin.c:50-56 | any other command, however padded, writes `Invalid command:` naming the trimmed text and exits with 2 |
| Builtin.ExitWithStatus | builtin.c:33-41 | `exit N`, however padded, exits with N |
| Builtin.ExitWithNegative | builtin.c:42-48 | `exit -N` writes the illegal-number message naming `-N` and exits with 2 |
| Builtin.ExitNegativeArgument | builtin.c:42-48 | `exit ` followed by any argument that atoi reads as negative writes the illegal-number message naming that argument and exits with 2 |
| Builtin.ExecuteEnv | builtin.c:64-103 | writes every entry followed by a newline, in `environ` order |
| Builtin.ExecuteSeparator | builtin.c:112-120 | every non-empty `;`/newline fragment runs, in order, whatever the earlier statuses |
| Builtin.SeparatorRunsBoth | builtin.c:114-119 | the fragments of `a;b` are those of `a` followed by those of `b` |
| Builtin.TrimAll | builtin.c:143-151 | each fragment is space-trimmed, none dropped |
| Builtin.Fragments | builtin.c:139-151 | definition of the trimmed fragments; LogicalSplits and OperatorBranchesUnreachable state its meaning |
| Builtin.LogicalSplits | builtin.c:139 | any run of `&`/`|` characters separates fragments: `a && b`, `a || b` and `a & b` split alike |
| Builtin.OperatorBranchesUnreachable | builtin.c:153-164 | no fragment is `&&` or `\|\|` |
| Builtin.TrimFragment | builtin.c:143-151 | the loops strip leading and trailing spaces of a fragment |
| Builtin.ExecuteLogicalOperator | builtin.c:130-183 | interactively all fragments run, in order, and 1 is returned; otherwise the first runs and the shell exits with 0 or 2 by its status |
| Executor.FirstExecutable | executor.c:23-51 | the first candidate passing the access check, and none only when none does |
| Executor.PathDirs | executor.c:14-18 | definition of the directories searched: the `:` tokens of PATH, none when PATH is unset |
| Executor.Resolve | executor.c:14-50 | definition of the path `get_command_path` settles on; ResolveFindsFirst and ResolveAt state its meaning |
| Executor.NotFoundMessage | executor.c:53-60 | definition of the not-found message, cut to the 1024-byte buffer; GetCommandPath states when it is written |
| Executor.ResolveFindsFirst | executor.c:18-50 | resolution gives `dir/command` for the first PATH directory, in order, where that is executable, and fails only when none is |
| Executor.ResolveAt | executor.c:23-50 | when directory i is the first whose `dir/command` is executable, resolution gives that path |
| Executor.SearchPath | executor.c:18-51 | the loop over the `:`-separated directories finds that path |
| Executor.JoinPath | executor.c:25-37 | the candidate is exactly `dir + "/" + command` |
| Executor.GetCommandPath | executor.c:12-68 | the found path; or the not-found message, with exit 127 outside interactive mode |
| Executor.PrepareCommand | executor.c:96-136 | no token gives -1; a first token with `/` is kept; otherwise it is replaced by its resolved path, and a failed lookup gives -1 (exit 127 outside interactive mode) |
| Executor.TargetOf | executor.c:277-293 | the rest of the line the re-seeded tokenizer is left on is a proper suffix of the line |
| Executor.CdBareTarget | executor.c:278-280 | `cd` with only spaces after it goes to HOME |
| Executor.CdWordThenRest | executor.c:281-293 | in `cd <blanks>p<d>rest`, with `d` a space or tab, the target is the first word `p` (`~` to HOME, `-` to OLDPWD), and the tokenizer is left on `rest` |
| Executor.CdWordTarget | executor.c:281-293 | `cd ~` goes to HOME, `cd -` to OLDPWD, `cd p` to p |
| Executor.CdMessage | executor.c:305-306 | definition of the numbered can't-cd message; CdFails states when it is written |
| Executor.LineStep | executor.c:276-333 | a line that lets the loop go on leaves it a proper suffix of itself to rescan |
| Executor.CdLine | executor.c:276-333 | one pass of the newline loop: its final state or how the loop goes on |
| Executor.CdRun | executor.c:273-338 | definition of the newline loop over the input's lines; ExecuteCd, CdFails, CdSucceeds, CdLeavesOtherNames, CdNeverSetsPwd and CdAbandonsLaterLines state its meaning |
| Executor.ExecuteCd | executor.c:250-354 | the environment, working directory, message and ending are those of the newline loop over the input's lines |
| Executor.CdFails | executor.c:303-313 | a failing chdir writes `./hsh: <n>: cd: can't cd to <path>` and returns with the environment unchanged |
| Executor.CdSucceeds | executor.c:314-329 | after a successful chdir in interactive mode: OLDPWD set to the old directory and return when its allocation succeeds; otherwise PWD set to the new directory and return when that allocation succeeds; the loop running out with the environment unchanged when both fail; undefined when getcwd fails in between. Outside interactive mode the environment is unchanged |
| Executor.CdNonInteractiveKeepsEnv | executor.c:316-331 | outside interactive mode the environment never changes |
| Executor.LineStepEffect | executor.c:314-329 | a line that ends the loop leaves the environment alone, or sets OLDPWD to the old directory after its allocation succeeded, or sets PWD to the new directory after the OLDPWD allocation failed and the PWD one succeeded |
| Executor.StopLeavesOtherNames | executor.c:314-329 | a line that ends the loop leaves every name other than OLDPWD and PWD (and those followed by `=`) looking up as before |
| Executor.CdLeavesOtherNames | executor.c:314-331 | only OLDPWD or PWD can change: every name that is neither, nor either of them followed by `=`, looks up as before |
| Executor.CdKeepsPath | executor.c:314-331 | PATH looks up after `execute_cd` as before it, so command lookup is unchanged |
| Executor.StopKeepsPwd | executor.c:317-322 | a line that ends the loop when the OLDPWD allocation succeeded leaves PWD looking up as before |
| Executor.CdNeverSetsPwd | executor.c:317-329 | PWD changes only when an OLDPWD allocation fails: when none does, PWD looks up as before |
| Executor.CdAbandonsLaterLines | executor.c:283-337 | after `cd p`, the lines that follow are never looked at |
| Shell.Classify | main.c:77-88 | definition of the dispatch chain; ClassifyMeaning states its meaning |
| Shell.ClassifyMeaning | main.c:77-88 | an `env` prefix wins, then a `cd` prefix (`cdx` included), then any `;`, then any `&` or `\|`; the rest is external |
| Shell.ExitIsExternal | main.c:75-88 | an `exit` line with no `;`, `&` or `\|` runs as an external command |
| Shell.ExitStatus | builtin.c:168-176 | outside interactive mode, a logical line with a fragment exits with 0 or 2 and an unresolved command with 127 (executor.c:61-66); nothing else exits |
| Shell.DispatchLine | main.c:75-88 | the line goes to the handler the chain names; the shell exits exactly when ExitStatus says, with its status, under the PATH the line starts with; only `cd` changes the environment or the directory, as its run over the line gives, and PATH is left alone |
| Shell.RunShell | main.c:36-99 | with an argument: the usage line and status 1; otherwise each line goes to its handler in order; the run stops at the first line ExitStatus gives a status for, under the starting PATH, and exits with that status; with no such line it returns 0 at the end of input |

## Left out

- Process control is not modelled: `fork`, `execve`, `waitpid`, `pipe`, `dup2`, the pipeline wiring of `execute_command` (executor.c:138-241), `get_system` and `run_system`. Command status is the oracle `sys`.
- `access`, `chdir`, `getcwd` and `opendir`/`closedir` are oracles or dropped. `handle_errno` and the text `perror` prints are not modelled.
- Not modelled: signals, the prompt, `read_command` (lines are a given sequence) and the implementation of `isInteractiveMode`.
- Memory bookkeeping (`free`, `free_environment`) is not modelled. The frees of `path` in `execute_cd` are out of the model too, including the freeing of an argument token that was never allocated. Allocation failure is modelled only in `set_environment`. Everywhere else it is taken never to happen, including in `stringdup`, `tokenize`, `stringarraycpy`, `get_environment`'s copy and `execute_cd`'s copy of the input.
- `strinprintf` is not part of this model. Its result is taken to be -1 exactly when the message has 1024 characters or more, and the message length otherwise.
- Executor.ExecuteCd: a run that reaches the end of the newline loop (outcome `Finished`) then reads `new_env` at executor.c:350. That variable is uninitialized when no `set_environment` ran, or holds `(char **)-1` after a failed PWD allocation, which is then passed to `free_environment`. The model reports such a run as `Finished` and does not model that read or that free.
- MEnvironment.CompareFrom: strings are sequences of characters, and the difference is taken on their code points. The C code subtracts signed `char` bytes, so on non-ASCII text the value, and even the sign, can differ: in UTF-8, `stringtwocmp("é", "a", 1)` gives -158 in C and 136 here. The two agree whenever the first differing characters are both below 128.
- The libc `setenv`/`unsetenv` effects of `process_env_command` are not modelled. `unsetenv` failing is taken to mean the name holds `=`.
- `atoi` overflow is not modelled, nor is `size_t`/`int` width in any length computation.
- `get_environment` on an unset PATH gives NULL, which `get_command_path` passes to `stringdup`. The model treats it as no directory.
- The in-place `'\0'` writes of `execute_exit` and `execute_logical_operator`, and the strtok writes into the input, are modelled on values. The caller's string is not shown as changed.
- Shell.RunShell: an `execute_cd` that reaches undefined behaviour (`Undefined`: a NULL path compared or stored) is taken to return to the loop. What each handler writes is stated by that handler's own contract, not by RunShell or DispatchLine.
- The oracles `sys` and `executable` are fixed functions of the text for the whole run. A status or an access result cannot depend on what earlier lines did, such as a `cd` before a relative PATH entry or a file an earlier command created. So the same command run twice gets the same status.
- Shell.DispatchLine: does not restate what the `env`, `;` and `&&`/`||` handlers and `execute_command` write or run; their own contracts state it.
- Executor.TargetOf: its own ensures states only the re-seeding bound that termination needs. The targets are stated by CdBareTarget, CdWordTarget and CdWordThenRest.
- Executor.LineStep: its own ensures states only the same bound. The branches are stated by CdFails, CdSucceeds and the lemmas about the whole loop.
- A `cd` line that is not bare but has no token from its fourth character on (`cdx`, or `cd` followed by a tab) makes the tokenizer return NULL, which `stringcmp` dereferences. The model ends such a run as `Undefined`.

## Findings

| source | as written | input that shows it | evidently intended | confidence | as-written member | corrected member |
|---|---|---|---|---|---|---|
| knight.c:17-26 | returns 0 on the first whitespace character and 1 otherwise | `" "` gives 0 and `"a"` gives 1 | 1 exactly when every character is whitespace, as the doc comment at knight.c:4-9 says | high, not executed | Knight.IsOnlyWhitespace, Knight.WhitespaceTestInverted | Knight.IsOnlyWhitespaceIntended |
